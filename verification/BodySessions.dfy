/** BODY replies in flight: any number of sessions share the hold gate while configurations are swapped
    underneath them and the server may close. A session's phase says where its reply has got to. */
module BodySessions {
  import opened ByteStrings
  import opened Wire
  import opened Chaos
  import opened HoldGates

  datatype Phase =
    | Snapped                                            // configuration snapshot and article taken
    | StatusSent                                         // 222 written
    | WaitingId(channel: nat)
    | Before(line: nat)                                  // about to serve a line, or the terminator
    | WaitingLine(line: nat, channel: nat, budgeted: bool)
    | Admitted(line: nat)
    | DotSent                                            // first half of a split terminator
    | Terminated                                         // full terminator written, not yet counted
    | Counted                                            // counted for its ID, not yet as a transfer
    | Recorded
    | BadTerminated
    | Dropped(line: nat)
    | ShutDown(line: nat)

  /** `body` is the body served and `lines` its lines, `out` what has been written after the 222 line, `spent`
      how many of the lines were admitted by spending the budget. */
  datatype Session = Session(
    id: Bytes, body: Bytes, lines: seq<Bytes>, chaos: ChaosConfig, phase: Phase, out: Bytes, spent: nat)

  /** How a session's next step turns out. */
  datatype Choice = Go | Drop | Bad | Split | Abort

  /** The session started under a configuration with a line budget, so each of its lines is gated. */
  predicate IsGated(x: Session) {
    x.chaos.holdBodyLines > 0
  }

  predicate AtLine(x: Session) {
    x.phase.Before? && x.phase.line < |x.lines|
  }

  /** Before a gated line: the line goes out, or waits for the release. */
  function GatedPhase(g: Gate, i: nat): Phase {
    match LineWait(g)
    case None => Admitted(i)
    case Some(channel) => WaitingLine(i, channel, g.chaos.holdBodyLines > 0)
  }

  /** After the last line: a bad, a split or a whole terminator. */
  function EndPhase(chaos: ChaosConfig, c: Choice): Option<Phase> {
    if c == Bad && MayHit(chaos.badTermPercent) then Some(BadTerminated)
    else if c == Split && MayMiss(chaos.badTermPercent) && MayHit(chaos.splitTermPercent) then Some(DotSent)
    else if c == Go && MayMiss(chaos.badTermPercent) && MayMiss(chaos.splitTermPercent) then Some(Terminated)
    else None
  }

  /** After a line is written the reply may be dropped. */
  function WrittenPhase(chaos: ChaosConfig, i: nat, c: Choice): Option<Phase> {
    if c == Drop && MayHit(chaos.dropMidBodyPercent) then Some(Dropped(i + 1))
    else if c == Go && MayMiss(chaos.dropMidBodyPercent) then Some(Before(i + 1))
    else None
  }

  /** A wait ends when its channel is closed, or by giving up when the server is. */
  function WokenPhase(g: Gate, closed: bool, channel: nat, i: nat, next: Phase, c: Choice): Option<Phase> {
    if c == Go && channel in g.closes then Some(next)
    else if c == Abort && closed then Some(ShutDown(i))
    else None
  }

  function GoTo(next: Phase, c: Choice): Option<Phase> {
    if c == Go then Some(next) else None
  }

  /** Where one step takes a session, when it has one with this outcome. */
  function NextPhase(g: Gate, closed: bool, x: Session, c: Choice): Option<Phase> {
    match x.phase
    case Snapped => GoTo(StatusSent, c)
    case StatusSent => GoTo(if IdWait(g, x.id).Some? then WaitingId(IdWait(g, x.id).value) else Before(0), c)
    case WaitingId(channel) => WokenPhase(g, closed, channel, 0, Before(0), c)
    case Before(i) =>
      if !AtLine(x) then EndPhase(x.chaos, c)
      else GoTo(if IsGated(x) then GatedPhase(g, i) else Admitted(i), c)
    case WaitingLine(i, channel, _) => WokenPhase(g, closed, channel, i, Admitted(i), c)
    case Admitted(i) => if i < |x.lines| then WrittenPhase(x.chaos, i, c) else None
    case DotSent => GoTo(Terminated, c)
    case Terminated => GoTo(Counted, c)
    case Counted => GoTo(Recorded, c)
    case _ => None
  }

  /** The step spends one line of the budget. */
  predicate SpendsOne(g: Gate, x: Session) {
    AtLine(x) && IsGated(x) && Spends(g)
  }

  /** The step writes something. */
  predicate Writes(x: Session) {
    x.phase.Admitted? || x.phase.DotSent? || (x.phase.Before? && !AtLine(x))
  }

  /** What it writes: the admitted line, or an ending. */
  function Emitted(x: Session, next: Phase): Bytes {
    match x.phase
    case Admitted(i) => if i < |x.lines| then StuffLine(x.lines[i]) + CRLF else []
    case DotSent => CRLF
    case _ =>
      match next
      case BadTerminated => [DOT, CR]
      case DotSent => [DOT]
      case _ => TERMINATOR
  }

  function Moved(g: Gate, x: Session, next: Phase): Session {
    x.(phase := next,
       out := if Writes(x) then x.out + Emitted(x, next) else x.out,
       spent := if SpendsOne(g, x) then x.spent + 1 else x.spent)
  }

  /** One step of one session on the gate. */
  function Advance(g: Gate, closed: bool, x: Session, c: Choice): Option<(Gate, Session)> {
    match NextPhase(g, closed, x, c)
    case None => None
    case Some(next) => Some((if SpendsOne(g, x) then AfterSpend(g) else g, Moved(g, x, next)))
  }

  // ----- what a session has written

  function LinesOut(x: Session): nat {
    match x.phase
    case Snapped => 0
    case StatusSent => 0
    case WaitingId(_) => 0
    case Before(i) => i
    case WaitingLine(i, _, _) => i
    case Admitted(i) => i
    case Dropped(i) => i
    case ShutDown(i) => i
    case _ => |x.lines|
  }

  predicate FullyTerminated(x: Session) {
    x.phase.Terminated? || x.phase.Counted? || x.phase.Recorded?
  }

  predicate Finished(x: Session) {
    x.phase.Recorded? || x.phase.BadTerminated? || x.phase.Dropped? || x.phase.ShutDown?
  }

  datatype End = NoEnd | HalfEnd | FullEnd | BadEnd

  function EndOf(x: Session): End {
    match x.phase
    case DotSent => HalfEnd
    case Terminated => FullEnd
    case Counted => FullEnd
    case Recorded => FullEnd
    case BadTerminated => BadEnd
    case _ => NoEnd
  }

  function EndText(end: End): Bytes {
    match end
    case NoEnd => []
    case HalfEnd => [DOT]
    case FullEnd => TERMINATOR
    case BadEnd => [DOT, CR]
  }

  /** The stuffed lines of the served body. */
  function Stuffing(x: Session): seq<Bytes> {
    Map(StuffLine, x.lines)
  }

  /** The session is at one of its lines, or past them. */
  predicate InPlace(x: Session) {
    && LinesOut(x) <= |x.lines|
    && (x.phase.Admitted? || x.phase.WaitingLine? ==> LinesOut(x) < |x.lines|)
  }

  /** It has written the lines before that place, and the ending it is at. */
  predicate HasWritten(x: Session)
    requires InPlace(x)
  {
    x.out == Text(Stuffing(x)[..LinesOut(x)]) + EndText(EndOf(x))
  }

  predicate OutputInv(x: Session) {
    InPlace(x) && HasWritten(x)
  }

  /** The reply got where it is by rolls its snapshot allows. */
  predicate RollsInv(x: Session) {
    && (x.phase.Dropped? ==> x.phase.line > 0 && MayHit(x.chaos.dropMidBodyPercent))
    && (!x.phase.Dropped? && LinesOut(x) > 0 ==> MayMiss(x.chaos.dropMidBodyPercent))
    && (x.phase.BadTerminated? ==> MayHit(x.chaos.badTermPercent))
    && (x.phase.DotSent? || FullyTerminated(x) ==> MayMiss(x.chaos.badTermPercent))
  }

  predicate SessionInv(x: Session) {
    OutputInv(x) && RollsInv(x) && x.lines == ContentLines(x.body)
  }

  lemma TextOneMore(lines: seq<Bytes>, i: nat)
    requires i < |lines|
    ensures Text(lines[..i + 1]) == Text(lines[..i]) + lines[i] + CRLF
  {
    assert lines[..i + 1] == lines[..i] + [lines[i]];
    TextAppend(lines[..i], [lines[i]]);
    assert Text([lines[i]]) == lines[i] + CRLF + Text([]);
    assert Text(lines[..i]) + (lines[i] + CRLF) == Text(lines[..i]) + lines[i] + CRLF;
  }

  lemma OneMoreWritten(out: Bytes, lines: seq<Bytes>, i: nat)
    requires i < |lines| && out == Text(lines[..i]) + []
    ensures out + (lines[i] + CRLF) == Text(lines[..i + 1]) + []
  {
    TextOneMore(lines, i);
  }

  lemma WriteLineKeepsOutput(g: Gate, x: Session, c: Choice)
    requires InPlace(x) && HasWritten(x) && x.phase.Admitted? && WrittenPhase(x.chaos, x.phase.line, c).Some?
    ensures OutputInv(Moved(g, x, WrittenPhase(x.chaos, x.phase.line, c).value))
  {
    var i := x.phase.line;
    OneMoreWritten(x.out, Stuffing(x), i);
    assert Stuffing(x)[i] == StuffLine(x.lines[i]);
  }

  lemma EndKeepsOutput(g: Gate, x: Session, c: Choice)
    requires InPlace(x) && HasWritten(x) && x.phase == Before(|x.lines|) && EndPhase(x.chaos, c).Some?
    ensures OutputInv(Moved(g, x, EndPhase(x.chaos, c).value))
  {
    var done := Text(Stuffing(x)[..|x.lines|]);
    assert done + [] == done;
  }

  lemma SecondHalfKeepsOutput(g: Gate, x: Session)
    requires InPlace(x) && HasWritten(x) && x.phase.DotSent?
    ensures OutputInv(Moved(g, x, Terminated))
  {
    var done := Text(Stuffing(x)[..|x.lines|]);
    assert done + [DOT] + CRLF == done + TERMINATOR;
  }

  /** Any other step only moves the phase on. */
  lemma OtherStepsWriteNothing(g: Gate, closed: bool, x: Session, c: Choice)
    requires InPlace(x) && !Writes(x) && NextPhase(g, closed, x, c).Some?
    ensures var y := Moved(g, x, NextPhase(g, closed, x, c).value);
            && LinesOut(y) == LinesOut(x) && EndOf(y) == EndOf(x)
            && InPlace(y)
  {}

  lemma WritingKeepsRolls(g: Gate, closed: bool, x: Session, c: Choice)
    requires InPlace(x) && RollsInv(x) && Writes(x) && NextPhase(g, closed, x, c).Some?
    ensures RollsInv(Moved(g, x, NextPhase(g, closed, x, c).value))
  {}

  lemma OtherStepsKeepRolls(g: Gate, closed: bool, x: Session, c: Choice)
    requires InPlace(x) && RollsInv(x) && !Writes(x) && NextPhase(g, closed, x, c).Some?
    ensures RollsInv(Moved(g, x, NextPhase(g, closed, x, c).value))
  {
    OtherStepsWriteNothing(g, closed, x, c);
  }

  lemma AdvanceKeepsRolls(g: Gate, closed: bool, x: Session, c: Choice)
    requires InPlace(x) && RollsInv(x) && Advance(g, closed, x, c).Some?
    ensures RollsInv(Advance(g, closed, x, c).value.1)
  {
    if Writes(x) {
      WritingKeepsRolls(g, closed, x, c);
    } else {
      OtherStepsKeepRolls(g, closed, x, c);
    }
  }

  /** A step writes the next line, an ending, or nothing. */
  lemma AdvanceKeepsOutput(g: Gate, closed: bool, x: Session, c: Choice)
    requires OutputInv(x) && Advance(g, closed, x, c).Some?
    ensures OutputInv(Advance(g, closed, x, c).value.1)
  {
    if x.phase.Admitted? {
      WriteLineKeepsOutput(g, x, c);
    } else if x.phase.DotSent? {
      SecondHalfKeepsOutput(g, x);
    } else if x.phase.Before? && !AtLine(x) {
      EndKeepsOutput(g, x, c);
    } else {
      OtherStepsWriteNothing(g, closed, x, c);
    }
  }

  /** Whatever happened around it, a session has written a prefix of the reply the fast path writes for the
      same body; it has written all of it exactly when it ended with the full terminator. */
  lemma OutputIsPrefix(x: Session)
    requires SessionInv(x)
    ensures x.out <= StuffedBlock(x.body)
    ensures x.out == StuffedBlock(x.body) <==> FullyTerminated(x)
  {
    var lines := Stuffing(x);
    var k := LinesOut(x);
    assert lines == lines[..k] + lines[k..];
    TextAppend(lines[..k], lines[k..]);
    assert StuffedBlock(x.body) == Text(lines) + TERMINATOR;
    if k < |lines| {
      assert |Text(lines[k..])| >= 2;
    }
  }
}
