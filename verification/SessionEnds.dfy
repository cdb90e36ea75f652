/** For every client and every input: once a session has ended, no byte that comes later is read as anything. */
module SessionEnds {
  import opened ByteStrings
  import opened Wire
  import opened Sessions
  import Posting

  // ----- reading is not changed by what comes later

  lemma {:induction false} IndexLfAppend(input: Bytes, more: Bytes)
    ensures IndexLf(input) < |input| ==> IndexLf(input + more) == IndexLf(input)
    ensures IndexLf(input) == |input| ==> IndexLf(input + more) >= |input|
  {
    var s := input + more;
    assert forall i :: 0 <= i < |input| ==> s[i] == input[i];
    assert IndexLf(input) < |input| ==> s[IndexLf(input)] == LF;
    assert IndexLf(s) < |s| ==> s[IndexLf(s)] == LF;
  }

  /** A read that gave a line or met an over-long one gives the same with more input behind it. */
  lemma NextLineAppend(input: Bytes, more: Bytes)
    ensures NextLine(input).Line? ==>
              NextLine(input + more) == Line(NextLine(input).line, NextLine(input).rest + more)
    ensures NextLine(input).TooLong? ==> NextLine(input + more) == TooLong(NextLine(input).rest + more)
  {
    IndexLfAppend(input, more);
    var n := IndexLf(input);
    if NextLine(input).Line? {
      assert (input + more)[..n + 1] == input[..n + 1];
      assert (input + more)[n + 1..] == input[n + 1..] + more;
    } else if NextLine(input).TooLong? {
      assert (input + more)[LINE_CAP..] == input[LINE_CAP..] + more;
    }
  }

  lemma {:induction false} ReadBlockAppend(input: Bytes, more: Bytes)
    ensures ReadBlock(input).Block? ==>
              ReadBlock(input + more) == Block(ReadBlock(input).lines, ReadBlock(input).rest + more)
    ensures ReadBlock(input).Overlong? ==> ReadBlock(input + more).Overlong?
    decreases |input|
  {
    NextLineAppend(input, more);
    if NextLine(input).Line? && TrimRightEol(NextLine(input).line) != [DOT] {
      ReadBlockAppend(NextLine(input).rest, more);
    }
  }

  /** What follows the first line, when it is one that the reader of an article keeps. */
  type Skipping = Bytes -> Option<Bytes>

  const SKIP: Skipping := (input: Bytes) => Posting.SkipKept(input)

  type Stopping = (Bytes, nat) -> Option<Bytes>

  const STOPS: Stopping := (input: Bytes, n: nat) => Posting.StopsAt(input, n)

  /** The reading stops behind one kept line more than the file takes. */
  predicate StopsBySkipping(stops: Stopping, skip: Skipping, input: Bytes, n: nat) {
    stops(input, n) == if skip(input).None? || n == 0 then skip(input) else stops(skip(input).value, n - 1)
  }

  lemma StopsAtSkips(input: Bytes, n: nat)
    ensures StopsBySkipping(STOPS, SKIP, input, n)
  {}

  /** The inputs in which the block ends or is over-long. */
  type Lasting = Bytes -> bool

  const LASTS: Lasting := (input: Bytes) => !ReadBlock(input).Cut?

  /** Longer inputs skip like shorter ones, as long as the block lasts. */
  predicate SkipsAlike(skip: Skipping, lasts: Lasting, input: Bytes, more: Bytes) {
    && (skip(input).Some? ==> skip(input + more) == Some(skip(input).value + more))
    && (lasts(input) ==> if skip(input).None? then skip(input + more).None? else lasts(skip(input).value))
  }

  lemma SkipAppend(input: Bytes, more: Bytes)
    ensures SkipsAlike(SKIP, LASTS, input, more)
  {
    NextLineAppend(input, more);
  }

  lemma {:induction false} StopAppend(stops: Stopping, skip: Skipping, lasts: Lasting, input: Bytes, more: Bytes,
                                      n: nat)
    requires forall s: Bytes, m: nat {:trigger StopsBySkipping(stops, skip, s, m)} :: StopsBySkipping(stops, skip, s, m)
    requires forall s: Bytes {:trigger SkipsAlike(skip, lasts, s, more)} :: SkipsAlike(skip, lasts, s, more)
    ensures stops(input, n).Some? ==> stops(input + more, n) == Some(stops(input, n).value + more)
    ensures stops(input, n).None? && lasts(input) ==> stops(input + more, n).None?
    decreases n
  {
    assert SkipsAlike(skip, lasts, input, more);
    assert StopsBySkipping(stops, skip, input, n) && StopsBySkipping(stops, skip, input + more, n);
    if skip(input).Some? && n > 0 {
      StopAppend(stops, skip, lasts, skip(input).value, more, n - 1);
    }
  }

  lemma StopsAtAppend(input: Bytes, more: Bytes, n: nat)
    ensures STOPS(input, n).Some? ==> STOPS(input + more, n) == Some(STOPS(input, n).value + more)
    ensures STOPS(input, n).None? && LASTS(input) ==> STOPS(input + more, n).None?
  {
    forall s: Bytes, m: nat ensures StopsBySkipping(STOPS, SKIP, s, m) {
      StopsAtSkips(s, m);
    }
    forall s: Bytes ensures SkipsAlike(SKIP, LASTS, s, more) {
      SkipAppend(s, more);
    }
    StopAppend(STOPS, SKIP, LASTS, input, more, n);
  }

  lemma StoppedByAppend(input: Bytes, more: Bytes, fault: Posting.LocalFault)
    ensures Posting.StoppedBy(input, fault).Some? ==>
              Posting.StoppedBy(input + more, fault) == Some(Posting.StoppedBy(input, fault).value + more)
    ensures Posting.StoppedBy(input, fault).None? && !ReadBlock(input).Cut? ==>
              Posting.StoppedBy(input + more, fault).None?
  {
    if fault.WriteFails? {
      StopsAtAppend(input, more, fault.after);
    }
  }

  // ----- the session

  /** The server ended the session, and not for want of input: by an over-long line, or by the last reply. */
  predicate IsOver(log: seq<Event>) {
    && log != []
    && (log[|log| - 1].LineTooLong? || log[|log| - 1].PostTooLong?
        || (log[|log| - 1].Ran? && Ends(log[|log| - 1].turn.reply)))
  }

  lemma OverLater(first: seq<Event>, later: seq<Event>)
    requires first != [] && IsOver(first + later) && !IsOver(first)
    ensures IsOver(later)
  {
    assert first + [] == first;
    assert later != [] ==> (first + later)[|first + later| - 1] == later[|later| - 1];
  }

  /** What a session does with an input once it is over, it does with every longer one. */
  lemma {:induction false} NothingIsReadAfterTheEnd(handler: Handler, input: Bytes, more: Bytes, st: State,
                                                    oracle: Oracle, n: nat)
    requires IsOver(Serve(handler, input, st, oracle, n))
    ensures Serve(handler, input + more, st, oracle, n) == Serve(handler, input, st, oracle, n)
    decreases |input|, 0
  {
    NextLineAppend(input, more);
    if NextLine(input).Line? {
      var turn := handler(st, NextLine(input).line, oracle(n));
      TurnAppend(handler, turn, NextLine(input).rest, more, oracle, n);
    }
  }

  lemma {:induction false} PostAppend(handler: Handler, turn: Turn, rest: Bytes, more: Bytes, oracle: Oracle, n: nat)
    requires !Ends(turn.reply) && IsOver(AfterPost(handler, turn, rest, oracle, n))
    ensures AfterPost(handler, turn, rest + more, oracle, n) == AfterPost(handler, turn, rest, oracle, n)
    decreases |rest|, 1
  {
    var stopped := Posting.StoppedBy(rest, oracle(n).fault);
    StoppedByAppend(rest, more, oracle(n).fault);
    ReadBlockAppend(rest, more);
    if stopped.Some? {
      OverLater([Ran(turn), PostBroken], Serve(handler, stopped.value, turn.state, oracle, n + 1));
      NothingIsReadAfterTheEnd(handler, stopped.value, more, turn.state, oracle, n + 1);
    } else if ReadBlock(rest).Block? {
      var post := PostedEvent(ReadBlock(rest).lines, oracle(n));
      var after := ReadBlock(rest).rest;
      OverLater([Ran(turn), post], Serve(handler, after, turn.state, oracle, n + 1));
      NothingIsReadAfterTheEnd(handler, after, more, turn.state, oracle, n + 1);
    }
  }

  lemma {:induction false} TurnAppend(handler: Handler, turn: Turn, rest: Bytes, more: Bytes, oracle: Oracle, n: nat)
    requires IsOver(AfterTurn(handler, turn, rest, oracle, n))
    ensures AfterTurn(handler, turn, rest + more, oracle, n) == AfterTurn(handler, turn, rest, oracle, n)
    decreases |rest|, 2
  {
    if !Ends(turn.reply) {
      if turn.reply.SendArticle340? {
        PostAppend(handler, turn, rest, more, oracle, n);
      } else {
        OverLater([Ran(turn)], Serve(handler, rest, turn.state, oracle, n + 1));
        NothingIsReadAfterTheEnd(handler, rest, more, turn.state, oracle, n + 1);
      }
    }
  }

  // ----- and nothing is logged after it

  /** No event but the last is a reply that ends the session. */
  predicate EndsLast(log: seq<Event>) {
    forall k :: 0 <= k < |log| - 1 && log[k].Ran? ==> !Ends(log[k].turn.reply)
  }

  lemma EndsLastAfter(first: seq<Event>, later: seq<Event>)
    requires EndsLast(later) && forall k :: 0 <= k < |first| && first[k].Ran? ==> !Ends(first[k].turn.reply)
    ensures EndsLast(first + later)
  {
    var log := first + later;
    forall k | 0 <= k < |log| - 1 && log[k].Ran? ensures !Ends(log[k].turn.reply) {
      if k >= |first| {
        assert log[k] == later[k - |first|];
      }
    }
  }

  lemma {:induction false} OnlyTheLastEnds(handler: Handler, input: Bytes, st: State, oracle: Oracle, n: nat)
    ensures EndsLast(Serve(handler, input, st, oracle, n))
    decreases |input|, 0
  {
    if NextLine(input).Line? {
      TurnEndsLast(handler, handler(st, NextLine(input).line, oracle(n)), NextLine(input).rest, oracle, n);
    }
  }

  lemma {:induction false} TurnEndsLast(handler: Handler, turn: Turn, rest: Bytes, oracle: Oracle, n: nat)
    ensures EndsLast(AfterTurn(handler, turn, rest, oracle, n))
    decreases |rest|, 2
  {
    if !Ends(turn.reply) {
      if turn.reply.SendArticle340? {
        PostEndsLast(handler, turn, rest, oracle, n);
      } else {
        OnlyTheLastEnds(handler, rest, turn.state, oracle, n + 1);
        EndsLastAfter([Ran(turn)], Serve(handler, rest, turn.state, oracle, n + 1));
      }
    }
  }

  lemma {:induction false} PostEndsLast(handler: Handler, turn: Turn, rest: Bytes, oracle: Oracle, n: nat)
    requires !Ends(turn.reply)
    ensures EndsLast(AfterPost(handler, turn, rest, oracle, n))
    decreases |rest|, 1
  {
    var stopped := Posting.StoppedBy(rest, oracle(n).fault);
    if stopped.Some? {
      OnlyTheLastEnds(handler, stopped.value, turn.state, oracle, n + 1);
      EndsLastAfter([Ran(turn), PostBroken], Serve(handler, stopped.value, turn.state, oracle, n + 1));
    } else if ReadBlock(rest).Block? {
      var after := ReadBlock(rest).rest;
      OnlyTheLastEnds(handler, after, turn.state, oracle, n + 1);
      EndsLastAfter([Ran(turn), PostedEvent(ReadBlock(rest).lines, oracle(n))],
                    Serve(handler, after, turn.state, oracle, n + 1));
    }
  }
}
