/** BODY as one session runs it (section 6.2.3 of RFC 3977): the fast path, and the line-by-line path with its
    waits and faults, while other sessions spend from the gate and install configurations at every wait. */
module BodyServing {
  import opened ByteStrings
  import opened Wire
  import opened Articles
  import opened Streams
  import opened ArticleStores
  import opened Chaos
  import opened HoldGates
  import opened BodySessions
  import opened BodyRuns
  import opened BodyGuarantees
  import Posting

  /** How the reply ended. The session goes on after a terminator, good or bad; it does not after a reply cut
      short, which was dropped after a line or gave up a wait because the server closes. */
  datatype Outcome = NoArticle | Complete | BadEnding | CutShort(lines: nat, closing: bool)

  /** The outcomes the snapshot's percentages allow. */
  predicate Allowed(chaos: ChaosConfig, body: Bytes, outcome: Outcome) {
    match outcome
    case NoArticle => true
    case Complete => MayMiss(chaos.badTermPercent) && (ContentLines(body) != [] ==> MayMiss(chaos.dropMidBodyPercent))
    case BadEnding => MayHit(chaos.badTermPercent) && (ContentLines(body) != [] ==> MayMiss(chaos.dropMidBodyPercent))
    case CutShort(n, closing) =>
      n <= |ContentLines(body)| && (!closing ==> n > 0 && MayHit(chaos.dropMidBodyPercent))
  }

  method Roll(percent: int) returns (hit: bool)
    ensures if hit then MayHit(percent) else MayMiss(percent)
    ensures (percent <= 0 ==> !hit) && (percent >= 100 ==> hit)
  {
    if percent <= 0 {
      return false;
    }
    if percent >= 100 {
      return true;
    }
    hit := *;
  }

  method Corrupt(contents: Bytes) returns (r: Bytes)
    ensures if |contents| < 2 then r == contents
            else exists position :: 0 <= position < |contents| && r == CorruptAt(contents, position)
  {
    if |contents| < 2 {
      return contents;
    }
    var position: int := *;
    if position < 0 || position >= |contents| {
      position := 0;
    }
    r := CorruptAt(contents, position);
    assert 0 <= position < |contents| && r == CorruptAt(contents, position);
  }

  /** Any number of steps of other sessions and of the control channel. */
  method Interfere(gate: HoldGate)
    requires gate.Valid()
    modifies gate, gate.channels
    ensures gate.Valid()
    ensures fresh(gate.channels - old(gate.channels))
    ensures forall c :: c in old(gate.channels) && old(c.closed) ==> c.closed
  {
    var steps: nat := *;
    while steps > 0
      invariant gate.Valid()
      invariant fresh(gate.channels - old(gate.channels))
      invariant forall c :: c in old(gate.channels) && old(c.closed) ==> c.closed
      decreases steps
    {
      var config: ChaosConfig := *;
      var installs: bool := *;
      if installs {
        ghost var held := gate.holdReleased;
        assert held != null ==> held == gate.made[gate.armed.value] && held in gate.channels;
        var _ := gate.SetChaos(true, config);
      } else {
        var other := new Asker();
        var _ := gate.SpendHoldLine(other);
      }
      steps := steps - 1;
    }
  }

  /** Waits for the release, or gives up because the server closes. Either may come after any number of steps of
      others, and when both have the choice is free. */
  method Await(gate: HoldGate, closed: Channel, released: Channel) returns (go: bool)
    requires gate.Valid() && closed !in gate.channels
    modifies gate, gate.channels, closed
    ensures gate.Valid() && closed !in gate.channels
    ensures if go then released.closed else closed.closed
    ensures fresh(gate.channels - old(gate.channels))
    ensures forall c :: c in old(gate.channels) && old(c.closed) ==> c.closed
  {
    Interfere(gate);
    var closes: bool := *;
    if !closed.closed && (closes || !released.closed) {
      closed.Close();
    }
    go := !closed.closed;
    if released.closed && closed.closed {
      go := *;
    }
  }

  /** Neither the hold nor the server was touched. */
  ghost predicate LeftAlone(was: Gate, now: Gate, wasClosed: bool, nowClosed: bool) {
    now == was && nowClosed == wasClosed
  }

  /** Before a line of a reply that started under a line budget: spend it, or wait on the armed channel. Other
      replies pass and leave the gate alone. A wait is given up only for a closed server. */
  method PassGate(gate: HoldGate, closed: Channel, asker: Asker, chaos: ChaosConfig) returns (go: bool)
    requires gate.Valid() && closed !in gate.channels
    modifies gate, gate.channels, closed, asker
    ensures gate.Valid() && closed !in gate.channels
    ensures chaos.holdBodyLines <= 0 ==> go
    ensures chaos.holdBodyLines <= 0 ==> LeftAlone(old(gate.View()), gate.View(), old(closed.closed), closed.closed)
    ensures chaos.holdBodyLines > 0 && LineWait(old(gate.View())).None? ==>
              go && gate.View() == AfterSpend(old(gate.View()))
    ensures chaos.holdBodyLines > 0 && LineWait(old(gate.View())).Some? && go ==>
              old(gate.made)[LineWait(old(gate.View())).value].closed
    ensures !go ==> closed.closed
    ensures fresh(gate.channels - old(gate.channels))
    ensures forall c :: c in old(gate.channels) && old(c.closed) ==> c.closed
    ensures asker.asked == old(asker.asked) + if chaos.holdBodyLines > 0 then 1 else 0
  {
    go := true;
    if chaos.holdBodyLines > 0 {
      var released := gate.SpendHoldLine(asker);
      if released != null {
        go := Await(gate, closed, released);
      }
    }
  }

  /** A reply that started under a line budget asks the gate once for each line it serves, and once more for one
      whose wait it gave up; any other never does. */
  function Asks(chaos: ChaosConfig, served: nat, gaveUp: bool): nat {
    if chaos.holdBodyLines <= 0 then 0 else if gaveUp then served + 1 else served
  }

  function AsksOf(chaos: ChaosConfig, body: Bytes, outcome: Outcome): nat {
    match outcome
    case NoArticle => 0
    case CutShort(n, closing) => Asks(chaos, n, closing)
    case _ => Asks(chaos, |ContentLines(body)|, false)
  }

  /** The text served of the first lines. */
  function ServedText(lines: seq<Bytes>, n: nat): Bytes
    requires n <= |lines|
  {
    Text(Map(StuffLine, lines)[..n])
  }

  lemma ServedTextOneMore(before: Bytes, lines: seq<Bytes>, i: nat)
    requires i < |lines|
    ensures before + ServedText(lines, i) + DotStuff(TrimSuffixCr(lines[i])) + CRLF == before + ServedText(lines, i + 1)
  {
    TextOneMore(Map(StuffLine, lines), i);
    assert Map(StuffLine, lines)[i] == StuffLine(lines[i]);
    assert before + (ServedText(lines, i) + StuffLine(lines[i]) + CRLF)
        == before + ServedText(lines, i) + StuffLine(lines[i]) + CRLF;
  }

  /** One turn of the loop: the line is written unless its wait was given up, and may be the last. */
  method ServeLine(writer: Writer, gate: HoldGate, closed: Channel, asker: Asker, chaos: ChaosConfig, line: Bytes)
    returns (written: bool, goOn: bool)
    requires gate.Valid() && closed !in gate.channels
    modifies writer, gate, gate.channels, closed, asker
    ensures gate.Valid() && closed !in gate.channels && fresh(gate.channels - old(gate.channels))
    ensures if written then writer.out == old(writer.out) + DotStuff(TrimSuffixCr(line)) + CRLF
            else writer.out == old(writer.out)
    ensures !written ==> closed.closed
    ensures goOn ==> written && MayMiss(chaos.dropMidBodyPercent)
    ensures written && !goOn ==> MayHit(chaos.dropMidBodyPercent)
    ensures forall c :: c in old(gate.channels) && old(c.closed) ==> c.closed
    ensures asker.asked == old(asker.asked) + if chaos.holdBodyLines > 0 then 1 else 0
    ensures chaos.holdBodyLines <= 0 ==> written
    ensures chaos.holdBodyLines <= 0 ==> LeftAlone(old(gate.View()), gate.View(), old(closed.closed), closed.closed)
    ensures chaos.holdBodyLines > 0 && LineWait(old(gate.View())).None? ==>
              written && gate.View() == AfterSpend(old(gate.View()))
    ensures chaos.holdBodyLines > 0 && LineWait(old(gate.View())).Some? && written ==>
              old(gate.made)[LineWait(old(gate.View())).value].closed
  {
    var go := PassGate(gate, closed, asker, chaos);
    if !go {
      return false, false;
    }
    writer.WriteLine(DotStuff(TrimSuffixCr(line)));
    var drop := Roll(chaos.dropMidBodyPercent);
    return true, !drop;
  }

  lemma NothingServed(before: Bytes, lines: seq<Bytes>)
    ensures before + ServedText(lines, 0) == before
  {
    assert Map(StuffLine, lines)[..0] == [];
  }

  /** The loop's next line. */
  method ServeNext(writer: Writer, gate: HoldGate, closed: Channel, asker: Asker, chaos: ChaosConfig,
                   ghost start: Bytes, ghost before: nat, lines: seq<Bytes>, i: nat)
    returns (written: bool, goOn: bool)
    requires gate.Valid() && closed !in gate.channels
    requires i < |lines| && writer.out == start + ServedText(lines, i)
    requires asker.asked == before + Asks(chaos, i, false)
    modifies writer, gate, gate.channels, closed, asker
    ensures gate.Valid() && closed !in gate.channels && fresh(gate.channels - old(gate.channels))
    ensures writer.out == start + ServedText(lines, if written then i + 1 else i)
    ensures !written ==> closed.closed
    ensures goOn ==> written && MayMiss(chaos.dropMidBodyPercent)
    ensures written && !goOn ==> MayHit(chaos.dropMidBodyPercent)
    ensures forall c :: c in old(gate.channels) && old(c.closed) ==> c.closed
    ensures chaos.holdBodyLines <= 0 ==> LeftAlone(old(gate.View()), gate.View(), old(closed.closed), closed.closed)
    ensures asker.asked == before + Asks(chaos, if written then i + 1 else i, !written)
  {
    ServedTextOneMore(start, lines, i);
    written, goOn := ServeLine(writer, gate, closed, asker, chaos, lines[i]);
  }

  /** The line-by-line loop. It stops early when the reply is dropped or the server closes. */
  method ServeLines(writer: Writer, gate: HoldGate, closed: Channel, asker: Asker, chaos: ChaosConfig,
                    lines: seq<Bytes>)
    returns (served: nat, whole: bool, closing: bool)
    requires gate.Valid() && closed !in gate.channels
    modifies writer, gate, gate.channels, closed, asker
    ensures gate.Valid() && closed !in gate.channels
    ensures served <= |lines| && (whole ==> served == |lines| && (lines != [] ==> MayMiss(chaos.dropMidBodyPercent)))
    ensures !whole && !closing ==> served > 0 && MayHit(chaos.dropMidBodyPercent)
    ensures !whole && closing ==> closed.closed
    ensures writer.out == old(writer.out) + ServedText(lines, served)
    ensures forall c :: c in old(gate.channels) && old(c.closed) ==> c.closed
    ensures chaos.holdBodyLines <= 0 ==> LeftAlone(old(gate.View()), gate.View(), old(closed.closed), closed.closed)
    ensures asker.asked == old(asker.asked) + Asks(chaos, served, !whole && closing)
  {
    served := 0;
    ghost var start, before := writer.out, asker.asked;
    NothingServed(start, lines);
    while served < |lines|
      invariant served <= |lines| && gate.Valid() && closed !in gate.channels
      invariant fresh(gate.channels - old(gate.channels))
      invariant writer.out == start + ServedText(lines, served)
      invariant forall c :: c in old(gate.channels) && old(c.closed) ==> c.closed
      invariant chaos.holdBodyLines <= 0 ==>
                  LeftAlone(old(gate.View()), gate.View(), old(closed.closed), closed.closed)
      invariant served > 0 ==> MayMiss(chaos.dropMidBodyPercent)
      invariant asker.asked == before + Asks(chaos, served, false)
    {
      var written, goOn := ServeNext(writer, gate, closed, asker, chaos, start, before, lines, served);
      if written {
        served := served + 1;
      }
      if !goOn {
        return served, false, !written;
      }
    }
    whole, closing := true, false;
  }

  lemma EverythingServed(body: Bytes)
    ensures ServedText(ContentLines(body), |ContentLines(body)|) == Stuffed(body)
  {
    var stuffed := Map(StuffLine, ContentLines(body));
    assert stuffed[..|stuffed|] == stuffed;
  }

  /** The ending of a reply whose lines are all out. */
  method WriteEnding(writer: Writer, chaos: ChaosConfig) returns (good: bool)
    modifies writer
    ensures writer.out == old(writer.out) + if good then TERMINATOR else [DOT, CR]
    ensures if good then MayMiss(chaos.badTermPercent) else MayHit(chaos.badTermPercent)
  {
    var bad := Roll(chaos.badTermPercent);
    if bad {
      writer.WriteRaw([DOT, CR]);
      return false;
    }
    var split := Roll(chaos.splitTermPercent);
    if split {
      writer.WriteRaw([DOT]);
      writer.WriteRaw(CRLF);
      assert [DOT] + CRLF == TERMINATOR;
    } else {
      writer.WriteLine([DOT]);
      assert [DOT] + CRLF == TERMINATOR;
    }
    good := true;
  }

  /** What a reply that ended so has written after its status line. */
  function Reply(body: Bytes, outcome: Outcome): Bytes {
    match outcome
    case NoArticle => []
    case Complete => Stuffed(body) + TERMINATOR
    case BadEnding => Stuffed(body) + [DOT, CR]
    case CutShort(n, _) => if n <= |ContentLines(body)| then ServedText(ContentLines(body), n) else []
  }

  lemma Joined(a: Bytes, b: Bytes, c: Bytes)
    ensures a + b + c == a + (b + c)
  {}

  /** The line-by-line path, from the first line to the ending. */
  method ServeByLine(writer: Writer, gate: HoldGate, closed: Channel, asker: Asker, chaos: ChaosConfig, body: Bytes)
    returns (outcome: Outcome)
    requires gate.Valid() && closed !in gate.channels
    modifies writer, gate, gate.channels, closed, asker
    ensures gate.Valid() && closed !in gate.channels && writer.out == old(writer.out) + Reply(body, outcome)
    ensures outcome != NoArticle && Allowed(chaos, body, outcome)
    ensures outcome.CutShort? && outcome.closing ==> closed.closed
    ensures forall c :: c in old(gate.channels) && old(c.closed) ==> c.closed
    ensures chaos.holdBodyLines <= 0 ==> LeftAlone(old(gate.View()), gate.View(), old(closed.closed), closed.closed)
    ensures asker.asked == old(asker.asked) + AsksOf(chaos, body, outcome)
  {
    var lines := ByteStrings.Split(body);
    if lines[|lines| - 1] == [] {
      lines := lines[..|lines| - 1];
    }
    assert lines == ContentLines(body);
    ghost var start := writer.out;
    var served, whole, closing := ServeLines(writer, gate, closed, asker, chaos, lines);
    if !whole {
      return CutShort(served, closing);
    }
    EverythingServed(body);
    var good := WriteEnding(writer, chaos);
    Joined(start, Stuffed(body), TERMINATOR);
    Joined(start, Stuffed(body), [DOT, CR]);
    outcome := if good then Complete else BadEnding;
  }

  /** The check after the 222 line: an article the live profile names waits on the armed channel. */
  method PassIdCheck(gate: HoldGate, closed: Channel, id: Bytes) returns (go: bool)
    requires gate.Valid() && closed !in gate.channels
    modifies gate, gate.channels, closed
    ensures gate.Valid() && closed !in gate.channels
    ensures !HoldsMessageId(old(gate.chaos), id) ==>
              go && LeftAlone(old(gate.View()), gate.View(), old(closed.closed), closed.closed)
    ensures HoldsMessageId(old(gate.chaos), id) && go ==> old(gate.holdReleased) != null
    ensures HoldsMessageId(old(gate.chaos), id) && go ==>
              old(gate.holdReleased) in old(gate.channels) && old(gate.holdReleased).closed
    ensures !go ==> closed.closed
    ensures fresh(gate.channels - old(gate.channels))
    ensures forall c :: c in old(gate.channels) && old(c.closed) ==> c.closed
  {
    var released := gate.HeldBody(id);
    go := true;
    if released != null {
      go := Await(gate, closed, released);
    }
  }

  /** After the 222 line: the wait of an article held by ID, then the path the snapshot asks for. */
  method ServeBody(writer: Writer, gate: HoldGate, closed: Channel, asker: Asker, id: Bytes, chaos: ChaosConfig,
                   body: Bytes)
    returns (outcome: Outcome)
    requires gate.Valid() && closed !in gate.channels
    modifies writer, gate, gate.channels, closed, asker
    ensures gate.Valid() && closed !in gate.channels && writer.out == old(writer.out) + Reply(body, outcome)
    ensures outcome != NoArticle && Allowed(chaos, body, outcome)
    ensures outcome.CutShort? && outcome.closing ==> closed.closed
    ensures IsFast(chaos) ==> outcome == Complete || outcome == CutShort(0, true)
    ensures forall c :: c in old(gate.channels) && old(c.closed) ==> c.closed
    ensures !HoldsMessageId(old(gate.chaos), id) && chaos.holdBodyLines <= 0 ==>
              LeftAlone(old(gate.View()), gate.View(), old(closed.closed), closed.closed)
    ensures HoldsMessageId(old(gate.chaos), id) ==>
              || outcome == NoArticle || outcome == CutShort(0, true)
              || (old(gate.holdReleased) != null && old(gate.holdReleased).closed)
    ensures asker.asked == old(asker.asked) + AsksOf(chaos, body, outcome) || outcome == CutShort(0, true)
  {
    var go := PassIdCheck(gate, closed, id);
    if !go {
      NothingServed(writer.out, ContentLines(body));
      outcome := CutShort(0, true);
    } else if IsFast(chaos) {
      ghost var start := writer.out;
      writer.WriteDotStuffed(body, true);
      Joined(start, Stuffed(body), TERMINATOR);
      outcome := Complete;
    } else {
      outcome := ServeByLine(writer, gate, closed, asker, chaos, body);
    }
  }

  /** One BODY. The body served is the article's, possibly corrupted; a complete reply is the same bytes on both
      paths, and any other reply is a part of it. The session ends exactly when the reply was cut short, and
      only a complete reply is recorded. */
  method HandleBody(writer: Writer, gate: HoldGate, closed: Channel, asker: Asker, store: ArticleStore,
                    id: Bytes, chaos: ChaosConfig)
    returns (keep: bool, recorded: bool, outcome: Outcome, body: Bytes)
    requires gate.Valid() && closed !in gate.channels
    modifies writer, gate, gate.channels, closed, asker
    ensures gate.Valid() && closed !in gate.channels
    ensures outcome == NoArticle <==> Lookup(old(store.View()), id).None?
    ensures outcome == NoArticle ==> writer.out == old(writer.out) + Posting.NO_SUCH_ARTICLE + CRLF
    ensures outcome != NoArticle ==>
              && MayServe(chaos.corruptBodyPercent, ArticleBody(Lookup(old(store.View()), id).value), body)
              && writer.out == old(writer.out) + ("222 0 <" + id + ">") + CRLF + Reply(body, outcome)
              && Allowed(chaos, body, outcome)
    ensures keep <==> !outcome.CutShort?
    ensures outcome.CutShort? && outcome.closing ==> closed.closed
    ensures recorded <==> outcome == Complete
    ensures !HoldsMessageId(old(gate.chaos), id) && chaos.holdBodyLines <= 0 ==>
              LeftAlone(old(gate.View()), gate.View(), old(closed.closed), closed.closed)
    ensures HoldsMessageId(old(gate.chaos), id) ==>
              || outcome == NoArticle || outcome == CutShort(0, true)
              || (old(gate.holdReleased) != null && old(gate.holdReleased).closed)
    ensures asker.asked == old(asker.asked) + AsksOf(chaos, body, outcome) || outcome == CutShort(0, true)
  {
    keep, recorded, outcome, body := true, false, NoArticle, [];
    var article := store.Load(id);
    if article.None? {
      writer.WriteLine(Posting.NO_SUCH_ARTICLE);
      return;
    }
    body := ArticleBody(article.value);
    var corrupts := Roll(chaos.corruptBodyPercent);
    if corrupts {
      body := Corrupt(body);
    }
    writer.WriteLine("222 0 <" + id + ">");
    outcome := ServeBody(writer, gate, closed, asker, id, chaos, body);
    keep := !outcome.CutShort?;
    recorded := outcome == Complete;
  }

  /** Only a complete reply is all of it; the others are strict parts. */
  lemma PartialRepliesAreStrict(body: Bytes, outcome: Outcome)
    requires outcome.CutShort? ==> outcome.lines <= |ContentLines(body)|
    ensures Reply(body, outcome) <= StuffedBlock(body)
    ensures Reply(body, outcome) == StuffedBlock(body) <==> outcome == Complete
  {
    if outcome.CutShort? {
      var lines := Map(StuffLine, ContentLines(body));
      assert lines == lines[..outcome.lines] + lines[outcome.lines..];
      TextAppend(lines[..outcome.lines], lines[outcome.lines..]);
    }
  }

  /** How a finished session of a run ended. */
  function OutcomeOf(phase: Phase): Outcome {
    match phase
    case Recorded => Complete
    case BadTerminated => BadEnding
    case Dropped(n) => CutShort(n, false)
    case ShutDown(n) => CutShort(n, true)
    case _ => NoArticle
  }

  lemma FinishedReply(x: Session)
    requires SessionInv(x) && Finished(x)
    ensures x.out == Reply(x.body, OutcomeOf(x.phase))
    ensures OutcomeOf(x.phase) != NoArticle && Allowed(x.chaos, x.body, OutcomeOf(x.phase))
  {
    var n := LinesOut(x);
    assert x.out == ServedText(x.lines, n) + EndText(EndOf(x));
    if n == |x.lines| {
      EverythingServed(x.body);
    }
  }

  /** The step-by-step account keeps what the loop promises: in any run a finished reply has the bytes promised
      for its outcome, the rolls allow the outcome, and only a closed server shut it down. */
  lemma FinishedRepliesKeepTheContract(w: World, k: nat)
    requires Reachable(w) && k < |w.sessions| && Finished(w.sessions[k])
    ensures var x := w.sessions[k];
            && x.out == Reply(x.body, OutcomeOf(x.phase))
            && OutcomeOf(x.phase) != NoArticle && Allowed(x.chaos, x.body, OutcomeOf(x.phase))
            && (OutcomeOf(x.phase).CutShort? && OutcomeOf(x.phase).closing ==> w.closed)
  {
    ReachableKeepsInv(w);
    FinishedReply(w.sessions[k]);
  }

  /** What rolls at 0 and at 100 per cent fix about a reply. */
  lemma FixedRollsFixTheOutcome(chaos: ChaosConfig, body: Bytes, outcome: Outcome)
    requires Allowed(chaos, body, outcome)
    ensures chaos.badTermPercent <= 0 ==> outcome != BadEnding
    ensures chaos.badTermPercent >= 100 ==> outcome != Complete
    ensures chaos.dropMidBodyPercent <= 0 && outcome.CutShort? ==> outcome.closing
    ensures chaos.dropMidBodyPercent >= 100 && |ContentLines(body)| > 0 ==> outcome.CutShort? || outcome == NoArticle
  {}
}
