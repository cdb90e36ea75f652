/** Held replies are released: once nothing is held, or the server is closed, every schedule ends with all
    replies finished. And while a hold is armed, it lets out no more lines than it was armed with. */
module BodyProgress {
  import opened ByteStrings
  import opened Wire
  import opened Chaos
  import opened HoldGates
  import opened Sums
  import opened BodySessions
  import opened BodyRuns
  import opened BodyGuarantees

  // ----- every schedule ends

  /** An upper bound on the steps a session still has to take, from its phase and its number of lines. */
  function StepsAt(phase: Phase, n: nat): nat {
    match phase
    case Snapped => 3 * n + 7
    case StatusSent => 3 * n + 6
    case WaitingId(_) => 3 * n + 5
    case Before(i) => if i < n then 3 * (n - i) + 4 else 4
    case WaitingLine(i, _, _) => if i < n then 3 * (n - i) + 3 else 0
    case Admitted(i) => if i < n then 3 * (n - i) + 2 else 0
    case DotSent => 3
    case Terminated => 2
    case Counted => 1
    case _ => 0
  }

  function StepsLeft(x: Session): nat {
    StepsAt(x.phase, |x.lines|)
  }

  lemma AdvanceDecreases(g: Gate, closed: bool, x: Session, c: Choice)
    requires InPlace(x) && Advance(g, closed, x, c).Some?
    ensures StepsLeft(Advance(g, closed, x, c).value.1) < StepsLeft(x)
  {}

  /** Nothing is held, or the server is closed. */
  predicate Quiet(w: World) {
    w.gate.armed.None? || w.closed
  }

  /** Then every unfinished session has a step. */
  lemma QuietSessionsCanStep(w: World, x: Session) returns (c: Choice)
    requires GateInv(w.gate) && InPlace(x) && WaitInv(w.gate, x) && Quiet(w) && !Finished(x)
    ensures Advance(w.gate, w.closed, x, c).Some?
  {
    c := Go;
    if WaitsOn(x).Some? {
      c := if WaitsOn(x).value in w.gate.closes then Go else Abort;
    } else if x.phase.Before? && x.phase.line >= |x.lines| {
      c := if MayHit(x.chaos.badTermPercent) then Bad else if MayHit(x.chaos.splitTermPercent) then Split else Go;
    } else if x.phase.Admitted? {
      c := if MayMiss(x.chaos.dropMidBodyPercent) then Go else Drop;
    }
  }

  predicate OnlyAdvances(steps: seq<Step>) {
    forall i :: 0 <= i < |steps| ==> steps[i].AdvanceSession?
  }

  /** Each session step uses up the bound, in whatever order the sessions take them. */
  lemma {:induction false} SchedulesAreBounded(w: World, steps: seq<Step>)
    requires Inv(w) && IsRun(w, steps) && OnlyAdvances(steps)
    ensures |steps| + Sum(StepsLeft, After(w, steps).sessions) <= Sum(StepsLeft, w.sessions)
    ensures After(w, steps).gate.armed == w.gate.armed && After(w, steps).closed == w.closed
    decreases |steps|
  {
    if steps != [] {
      var k, choice := steps[0].k, steps[0].choice;
      var x := w.sessions[k];
      AdvanceDecreases(w.gate, w.closed, x, choice);
      SumUpdate(StepsLeft, w.sessions, k, Advance(w.gate, w.closed, x, choice).value.1);
      StepKeepsInv(w, steps[0]);
      SchedulesAreBounded(Apply(w, steps[0]), steps[1..]);
    }
  }

  /** No session has a step left. */
  ghost predicate Stuck(w: World) {
    forall k, c :: 0 <= k < |w.sessions| ==> Advance(w.gate, w.closed, w.sessions[k], c).None?
  }

  ghost predicate AllFinished(w: World) {
    forall k :: 0 <= k < |w.sessions| ==> Finished(w.sessions[k])
  }

  /** When nothing is held or the server is closed, no schedule of session steps goes on for longer than the
      bound, and one that cannot go on has finished every reply. */
  lemma QuietSchedulesFinish(w: World, steps: seq<Step>)
    requires Inv(w) && Quiet(w) && IsRun(w, steps) && OnlyAdvances(steps)
    ensures |steps| <= Sum(StepsLeft, w.sessions)
    ensures Stuck(After(w, steps)) ==> AllFinished(After(w, steps))
  {
    SchedulesAreBounded(w, steps);
    RunKeepsInv(w, steps);
    var last := After(w, steps);
    if Stuck(last) {
      forall k | 0 <= k < |last.sessions| ensures Finished(last.sessions[k]) {
        var x := last.sessions[k];
        assert SessionInv(x) && WaitInv(last.gate, x);
        if !Finished(x) {
          var c := QuietSessionsCanStep(last, x);
        }
      }
    }
  }

  lemma QuietNoneBlocked(w: World)
    requires Inv(w) && w.gate.armed.None?
    ensures forall k :: 0 <= k < |w.sessions| ==> !Blocked(w.gate, w.sessions[k])
  {
    forall k | 0 <= k < |w.sessions| ensures !Blocked(w.gate, w.sessions[k]) {
      assert WaitInv(w.gate, w.sessions[k]);
    }
  }

  /** From any reachable state: after a configuration without a hold, no body is blocked, and the sessions
      finish in every schedule. */
  lemma ReleasedRepliesFinish(w: World, config: ChaosConfig, steps: seq<Step>)
    requires Reachable(w) && Validate(config) && config.holdBodyLines == 0 && config.holdMessageIds == []
    requires IsRun(Apply(w, InstallConfig(config)), steps) && OnlyAdvances(steps)
    ensures var v := Apply(w, InstallConfig(config));
            && (forall k :: 0 <= k < |v.sessions| ==> !Blocked(v.gate, v.sessions[k]))
            && |steps| <= Sum(StepsLeft, v.sessions)
            && (Stuck(After(v, steps)) ==> AllFinished(After(v, steps)))
  {
    ReachableKeepsInv(w);
    StepKeepsInv(w, InstallConfig(config));
    var v := Apply(w, InstallConfig(config));
    InstalledGate(w.gate, config);
    QuietNoneBlocked(v);
    QuietSchedulesFinish(v, steps);
  }

  /** And once the server is closed, held bodies give up their waits, so the sessions finish as well. */
  lemma ClosedServerFinishes(w: World, steps: seq<Step>)
    requires Reachable(w) && w.closed && IsRun(w, steps) && OnlyAdvances(steps)
    ensures |steps| <= Sum(StepsLeft, w.sessions)
    ensures Stuck(After(w, steps)) ==> AllFinished(After(w, steps))
  {
    ReachableKeepsInv(w);
    QuietSchedulesFinish(w, steps);
  }

  // ----- what an armed hold lets out

  function GatedLines(x: Session): nat {
    if IsGated(x) then LinesOut(x) else 0
  }

  /** A gated line already let through: admitted, or waiting on a channel other than the armed one. */
  function PastTheGate(armed: nat, x: Session): nat {
    if IsGated(x) && (x.phase.Admitted? || (x.phase.WaitingLine? && x.phase.channel != armed)) then 1 else 0
  }

  function Due(armed: nat): Session -> nat {
    (x: Session) => GatedLines(x) + PastTheGate(armed, x)
  }

  /** The gated lines out or due from one session, with the lines the gate still has to give. */
  function DueAt(armed: nat, at: (Gate, Session)): int {
    GatedLines(at.1) + PastTheGate(armed, at.1) + at.0.remaining
  }

  lemma AdvanceDue(g: Gate, closed: bool, x: Session, c: Choice)
    requires GateInv(g) && g.armed.Some? && InPlace(x) && Advance(g, closed, x, c).Some?
    ensures Advance(g, closed, x, c).value.0.armed == g.armed
    ensures DueAt(g.armed.value, Advance(g, closed, x, c).value) <= DueAt(g.armed.value, (g, x))
  {}

  predicate NoInstalls(steps: seq<Step>) {
    forall i :: 0 <= i < |steps| ==> !steps[i].InstallConfig?
  }

  lemma StepDue(w: World, step: Step)
    requires Inv(w) && w.gate.armed.Some? && Enabled(w, step) && !step.InstallConfig?
    ensures var v := Apply(w, step);
            && v.gate.armed == w.gate.armed
            && Sum(Due(w.gate.armed.value), v.sessions) + v.gate.remaining
            <= Sum(Due(w.gate.armed.value), w.sessions) + w.gate.remaining
  {
    var due := Due(w.gate.armed.value);
    match step
    case StartBody(id, body, served) =>
      SumPush(due, w.sessions, Fresh(id, served, w.gate.chaos));
    case AdvanceSession(k, choice) =>
      AdvanceDue(w.gate, w.closed, w.sessions[k], choice);
      SumUpdate(due, w.sessions, k, Advance(w.gate, w.closed, w.sessions[k], choice).value.1);
    case CloseServer =>
    case ResetMetrics =>
  }

  lemma {:induction false} RunDue(w: World, steps: seq<Step>)
    requires Inv(w) && w.gate.armed.Some? && IsRun(w, steps) && NoInstalls(steps)
    ensures var v := After(w, steps);
            && v.gate.armed == w.gate.armed
            && Sum(Due(w.gate.armed.value), v.sessions) + v.gate.remaining
            <= Sum(Due(w.gate.armed.value), w.sessions) + w.gate.remaining
    decreases |steps|
  {
    if steps != [] {
      StepDue(w, steps[0]);
      StepKeepsInv(w, steps[0]);
      RunDue(Apply(w, steps[0]), steps[1..]);
    }
  }

  function PastTheGateOf(armed: nat): Session -> nat {
    (x: Session) => PastTheGate(armed, x)
  }

  lemma {:induction false} DueParts(armed: nat, xs: seq<Session>)
    ensures Sum(Due(armed), xs) == Sum(GatedLines, xs) + Sum(PastTheGateOf(armed), xs)
  {
    if xs != [] {
      DueParts(armed, xs[1..]);
    }
  }

  lemma AtMostTheRemaining(w: World, steps: seq<Step>)
    requires Inv(w) && w.gate.armed.Some? && IsRun(w, steps) && NoInstalls(steps)
    ensures Sum(GatedLines, After(w, steps).sessions)
         <= Sum(GatedLines, w.sessions) + w.gate.remaining + Sum(PastTheGateOf(w.gate.armed.value), w.sessions)
  {
    RunDue(w, steps);
    DueParts(w.gate.armed.value, w.sessions);
    DueParts(w.gate.armed.value, After(w, steps).sessions);
    RunKeepsInv(w, steps);
  }

  /** After a configuration with a hold is installed in any reachable state, and until the next one, all gated replies
      together write at most the installed budget, besides the lines that were already past the gate. */
  lemma HoldServesAtMostItsBudget(w: World, config: ChaosConfig, steps: seq<Step>)
    requires Reachable(w) && Validate(config) && HoldsSomething(config)
    requires IsRun(Apply(w, InstallConfig(config)), steps) && NoInstalls(steps)
    ensures var v := Apply(w, InstallConfig(config));
            && v.gate.armed.Some?
            && Sum(GatedLines, After(v, steps).sessions)
            <= Sum(GatedLines, v.sessions) + config.holdBodyLines + Sum(PastTheGateOf(v.gate.armed.value), v.sessions)
  {
    ReachableKeepsInv(w);
    StepKeepsInv(w, InstallConfig(config));
    var v := Apply(w, InstallConfig(config));
    InstalledGate(w.gate, config);
    AtMostTheRemaining(v, steps);
  }

  /** A reply that started before any line budget was armed is never gated: at each line it goes on, and
      leaves the gate as it was, whatever is live by then. */
  lemma UngatedReplyIgnoresTheHold(g: Gate, closed: bool, x: Session)
    requires AtLine(x) && !IsGated(x)
    ensures Advance(g, closed, x, Go) == Some((g, x.(phase := Admitted(x.phase.line))))
  {}

  /** A gated reply waits at its next line exactly when a channel is armed and the budget is used up, even if
      the live configuration has no line budget and does not name the article. */
  lemma GatedReplyWaitsForAnyHold(g: Gate, closed: bool, x: Session)
    requires GateInv(g) && AtLine(x) && IsGated(x)
    ensures Advance(g, closed, x, Go).Some?
    ensures Advance(g, closed, x, Go).value.1.phase.WaitingLine? <==> HoldsSomething(g.chaos) && g.remaining == 0
    ensures Advance(g, closed, x, Go).value.1.phase.Admitted? <==> !HoldsSomething(g.chaos) || g.remaining > 0
  {}
}
