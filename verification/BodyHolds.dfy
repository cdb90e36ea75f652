/** What an exhausted hold blocks and what it lets pass, over runs; and whose budget a waiting line has. */
module BodyHolds {
  import opened ByteStrings
  import opened Wire
  import opened Chaos
  import opened HoldGates
  import opened BodySessions
  import opened BodyRuns
  import opened BodyGuarantees
  import opened BodyProgress

  // ----- replies that no line budget gates

  /** Not gated, not waiting, and with no wait by ID ahead on this gate. */
  predicate Passes(g: Gate, x: Session) {
    !IsGated(x) && WaitsOn(x).None? && (x.phase.Snapped? || x.phase.StatusSent? ==> IdWait(g, x.id).None?)
  }

  lemma PassingStep(g: Gate, closed: bool, x: Session) returns (c: Choice)
    requires InPlace(x) && Passes(g, x) && !Finished(x)
    ensures Advance(g, closed, x, c).Some? && Advance(g, closed, x, c).value.0 == g
    ensures Passes(g, Advance(g, closed, x, c).value.1)
    ensures !Advance(g, closed, x, c).value.1.phase.ShutDown?
  {
    c := Go;
    if AtLine(x) {
      UngatedReplyIgnoresTheHold(g, closed, x);
    } else if x.phase.Before? {
      c := if MayHit(x.chaos.badTermPercent) then Bad else if MayHit(x.chaos.splitTermPercent) then Split else Go;
    } else if x.phase.Admitted? {
      c := if MayMiss(x.chaos.dropMidBodyPercent) then Go else Drop;
    }
  }

  /** Only session k steps. */
  predicate StepsOf(steps: seq<Step>, k: nat) {
    forall i :: 0 <= i < |steps| ==> steps[i].AdvanceSession? && steps[i].k == k
  }

  /** Everything but session k is the same, and so is what it serves. */
  ghost predicate SameBut(w: World, v: World, k: nat)
    requires k < |w.sessions|
  {
    && v.gate == w.gate && v.closed == w.closed && |v.sessions| == |w.sessions|
    && v.sessions == w.sessions[k := v.sessions[k]]
    && v.sessions[k].body == w.sessions[k].body && v.sessions[k].chaos == w.sessions[k].chaos
  }

  lemma PassOn(w: World, k: nat) returns (step: Step)
    requires Inv(w) && k < |w.sessions| && Passes(w.gate, w.sessions[k]) && !Finished(w.sessions[k])
    ensures step.AdvanceSession? && step.k == k && Enabled(w, step)
    ensures var v := Apply(w, step);
            && SameBut(w, v, k) && Passes(v.gate, v.sessions[k]) && !v.sessions[k].phase.ShutDown?
            && StepsLeft(v.sessions[k]) < StepsLeft(w.sessions[k])
  {
    var c := PassingStep(w.gate, w.closed, w.sessions[k]);
    step := AdvanceSession(k, c);
    AdvanceDecreases(w.gate, w.closed, w.sessions[k], c);
  }

  lemma RunFirst(w: World, step: Step, more: seq<Step>)
    requires Enabled(w, step) && IsRun(Apply(w, step), more)
    ensures IsRun(w, [step] + more) && After(w, [step] + more) == After(Apply(w, step), more)
  {
    assert ([step] + more)[1..] == more;
  }

  lemma SameButTwice(w: World, u: World, v: World, k: nat)
    requires k < |w.sessions| && SameBut(w, u, k) && SameBut(u, v, k)
    ensures SameBut(w, v, k)
  {}

  ghost predicate FinishesAlone(w: World, steps: seq<Step>, k: nat) {
    && k < |w.sessions| && IsRun(w, steps) && StepsOf(steps, k) && SameBut(w, After(w, steps), k)
    && Finished(After(w, steps).sessions[k]) && !After(w, steps).sessions[k].phase.ShutDown?
  }

  lemma FinishesAfter(w: World, step: Step, more: seq<Step>, k: nat)
    requires k < |w.sessions| && Enabled(w, step) && step.AdvanceSession? && step.k == k
    requires SameBut(w, Apply(w, step), k) && FinishesAlone(Apply(w, step), more, k)
    ensures FinishesAlone(w, [step] + more, k)
  {
    RunFirst(w, step, more);
    SameButTwice(w, Apply(w, step), After(Apply(w, step), more), k);
  }

  /** Whatever is held and however little is left of it, a passing reply finishes by steps of its own, which
      leave the hold and the other replies alone. */
  lemma {:induction false} PassingReplyFinishesAlone(w: World, k: nat) returns (steps: seq<Step>)
    requires Inv(w) && k < |w.sessions| && Passes(w.gate, w.sessions[k]) && !w.sessions[k].phase.ShutDown?
    ensures IsRun(w, steps) && StepsOf(steps, k) && SameBut(w, After(w, steps), k)
    ensures Finished(After(w, steps).sessions[k]) && !After(w, steps).sessions[k].phase.ShutDown?
    decreases StepsLeft(w.sessions[k])
  {
    if Finished(w.sessions[k]) {
      steps := [];
    } else {
      var step := PassOn(w, k);
      StepKeepsInv(w, step);
      var more := PassingReplyFinishesAlone(Apply(w, step), k);
      FinishesAfter(w, step, more, k);
      steps := [step] + more;
    }
  }

  // ----- replies that an exhausted budget holds

  predicate Calm(steps: seq<Step>) {
    forall i :: 0 <= i < |steps| ==> !steps[i].InstallConfig? && !steps[i].CloseServer?
  }

  /** Something is held, and no budget is left of it. */
  predicate Exhausted(w: World) {
    w.gate.armed.Some? && w.gate.remaining == 0 && !w.closed
  }

  /** A gated reply before one of its lines, or waiting there on the armed channel. */
  predicate AtTheGate(g: Gate, x: Session) {
    IsGated(x) && (AtLine(x) || (x.phase.WaitingLine? && g.armed == Some(x.phase.channel)))
  }

  lemma OwnStepStays(g: Gate, x: Session, c: Choice)
    requires GateInv(g) && g.armed.Some? && g.remaining == 0 && AtTheGate(g, x) && Advance(g, false, x, c).Some?
    ensures var (h, y) := Advance(g, false, x, c).value; h == g && AtTheGate(g, y) && y.out == x.out
  {
    if AtLine(x) {
      GatedReplyWaitsForAnyHold(g, false, x);
    }
  }

  lemma NothingToSpend(g: Gate, closed: bool, x: Session, c: Choice)
    requires g.remaining == 0 && Advance(g, closed, x, c).Some?
    ensures Advance(g, closed, x, c).value.0 == g
  {}

  lemma StepStaysHeld(w: World, step: Step, k: nat)
    requires Inv(w) && Exhausted(w) && k < |w.sessions| && AtTheGate(w.gate, w.sessions[k])
    requires Enabled(w, step) && !step.InstallConfig? && !step.CloseServer?
    ensures var v := Apply(w, step);
            && v.gate == w.gate && v.closed == w.closed && k < |v.sessions|
            && AtTheGate(v.gate, v.sessions[k]) && v.sessions[k].out == w.sessions[k].out
  {
    if step.AdvanceSession? {
      NothingToSpend(w.gate, w.closed, w.sessions[step.k], step.choice);
      if step.k == k {
        OwnStepStays(w.gate, w.sessions[k], step.choice);
      }
    }
  }

  /** Until a profile is installed or the server closes, a gated reply at a line of an exhausted hold stays there
      and writes nothing, whatever else happens. */
  lemma {:induction false} GatedReplyStaysHeld(w: World, steps: seq<Step>, k: nat)
    requires Inv(w) && Exhausted(w) && k < |w.sessions| && AtTheGate(w.gate, w.sessions[k])
    requires IsRun(w, steps) && Calm(steps)
    ensures var v := After(w, steps);
            && v.gate == w.gate && k < |v.sessions|
            && AtTheGate(v.gate, v.sessions[k]) && v.sessions[k].out == w.sessions[k].out
    decreases |steps|
  {
    if steps != [] {
      StepStaysHeld(w, steps[0], k);
      StepKeepsInv(w, steps[0]);
      GatedReplyStaysHeld(Apply(w, steps[0]), steps[1..], k);
    }
  }

  /** The reply can be finished without a new profile and without closing the server. */
  ghost predicate CanFinish(w: World, k: nat) {
    exists steps ::
      IsRun(w, steps) && Calm(steps) && k < |After(w, steps).sessions| && Finished(After(w, steps).sessions[k])
  }

  /** An exhausted hold blocks a reply at one of its lines if and only if the reply started under a profile with
      a line budget. */
  lemma BlockedExactlyWhenGated(w: World, k: nat)
    requires Reachable(w) && Exhausted(w) && k < |w.sessions| && AtLine(w.sessions[k])
    ensures CanFinish(w, k) <==> w.sessions[k].chaos.holdBodyLines <= 0
  {
    ReachableKeepsInv(w);
    if IsGated(w.sessions[k]) {
      forall steps | IsRun(w, steps) && Calm(steps) && k < |After(w, steps).sessions|
        ensures !Finished(After(w, steps).sessions[k])
      {
        GatedReplyStaysHeld(w, steps, k);
      }
    } else {
      var steps := PassingReplyFinishesAlone(w, k);
      assert Calm(steps) && Finished(After(w, steps).sessions[k]);
    }
  }

  // ----- replies held by ID

  /** What every step but an install and a close keeps, every calm run keeps. */
  lemma {:induction false} CalmRunKeeps(holds: World -> bool, w: World, steps: seq<Step>)
    requires holds(w) && IsRun(w, steps) && Calm(steps)
    requires forall u, step | holds(u) && Enabled(u, step) && !step.InstallConfig? && !step.CloseServer? ::
               holds(Apply(u, step))
    ensures holds(After(w, steps))
    decreases |steps|
  {
    if steps != [] {
      CalmRunKeeps(holds, Apply(w, steps[0]), steps[1..]);
    }
  }

  /** At most the status line is out: the reply is before its ID check, or waits there on the armed channel. */
  predicate AtTheIdCheck(g: Gate, x: Session) {
    || x.phase.Snapped?
    || x.phase.StatusSent?
    || (x.phase.WaitingId? && g.armed == Some(x.phase.channel))
  }

  lemma OwnStepAwaits(g: Gate, x: Session, c: Choice)
    requires GateInv(g) && g.armed.Some? && HoldsMessageId(g.chaos, x.id)
    requires AtTheIdCheck(g, x) && Advance(g, false, x, c).Some?
    ensures var (h, y) := Advance(g, false, x, c).value;
            h == g && AtTheIdCheck(g, y) && y.out == x.out && y.id == x.id
  {}

  /** A gate without the budget: what other replies do to it leaves its profile and its channel. */
  lemma StepLeavesTheHold(w: World, step: Step)
    requires Enabled(w, step) && !step.InstallConfig?
    ensures Apply(w, step).gate.chaos == w.gate.chaos && Apply(w, step).gate.armed == w.gate.armed
  {}

  /** The live profile names the article, and the server is open. */
  predicate Named(w: World, id: Bytes) {
    !w.closed && w.gate.armed.Some? && HoldsMessageId(w.gate.chaos, id)
  }

  /** Reply k waits for its ID check or for the release, with this written. */
  predicate Waits(w: World, k: nat, out: Bytes) {
    && k < |w.sessions| && Named(w, w.sessions[k].id) && AtTheIdCheck(w.gate, w.sessions[k])
    && w.sessions[k].out == out
  }

  lemma StepKeepsWaiting(w: World, step: Step, k: nat, out: Bytes)
    requires Inv(w) && Waits(w, k, out) && Enabled(w, step) && !step.InstallConfig? && !step.CloseServer?
    ensures Waits(Apply(w, step), k, out)
  {
    StepLeavesTheHold(w, step);
    if step.AdvanceSession? && step.k == k {
      OwnStepAwaits(w.gate, w.sessions[k], step.choice);
    }
  }

  ghost predicate StaysHeld(w: World, k: nat, out: Bytes) {
    Inv(w) && Waits(w, k, out)
  }

  lemma StepLeavesItHeld(w: World, step: Step, k: nat, out: Bytes)
    requires StaysHeld(w, k, out) && Enabled(w, step) && !step.InstallConfig? && !step.CloseServer?
    ensures StaysHeld(Apply(w, step), k, out)
  {
    StepKeepsWaiting(w, step, k, out);
    StepKeepsInv(w, step);
  }

  lemma NamedReplyStaysHeld(w: World, steps: seq<Step>, k: nat, out: Bytes)
    requires StaysHeld(w, k, out) && IsRun(w, steps) && Calm(steps)
    ensures StaysHeld(After(w, steps), k, out)
  {
    forall u, step | StaysHeld(u, k, out) && Enabled(u, step) && !step.InstallConfig? && !step.CloseServer?
      ensures StaysHeld(Apply(u, step), k, out)
    {
      StepLeavesItHeld(u, step, k, out);
    }
    CalmRunKeeps(u => StaysHeld(u, k, out), w, steps);
  }

  lemma NamedIsArmed(w: World, id: Bytes)
    requires Inv(w) && !w.closed && HoldsMessageId(w.gate.chaos, id)
    ensures Named(w, id)
  {
    assert w.gate.chaos.holdMessageIds != [];
  }

  lemma NothingOut(x: Session)
    requires InPlace(x) && HasWritten(x) && LinesOut(x) == 0 && EndOf(x) == NoEnd
    ensures x.out == []
  {
    assert Stuffing(x)[..0] == [];
  }

  /** In every run without a new profile and without a close, a reply whose article the live profile names writes
      nothing after its status line. */
  lemma HeldByIdWritesNothing(w: World, steps: seq<Step>, k: nat)
    requires Reachable(w) && !w.closed && k < |w.sessions| && AtTheIdCheck(w.gate, w.sessions[k])
    requires HoldsMessageId(w.gate.chaos, w.sessions[k].id) && IsRun(w, steps) && Calm(steps)
    ensures var v := After(w, steps); k < |v.sessions| && v.sessions[k].out == [] && !Finished(v.sessions[k])
  {
    ReachableKeepsInv(w);
    NamedIsArmed(w, w.sessions[k].id);
    NamedReplyStaysHeld(w, steps, k, w.sessions[k].out);
    var x := After(w, steps).sessions[k];
    assert SessionInv(x);
    NothingOut(x);
  }

  /** A reply at its ID check, started without a line budget, can be finished without a new profile and without
      closing the server if and only if the live profile does not name its article. */
  lemma BlockedExactlyWhenNamed(w: World, k: nat)
    requires Reachable(w) && !w.closed && k < |w.sessions|
    requires w.sessions[k].phase.Snapped? || w.sessions[k].phase.StatusSent?
    requires w.sessions[k].chaos.holdBodyLines <= 0
    ensures CanFinish(w, k) <==> !HoldsMessageId(w.gate.chaos, w.sessions[k].id)
  {
    ReachableKeepsInv(w);
    if HoldsMessageId(w.gate.chaos, w.sessions[k].id) {
      forall steps | IsRun(w, steps) && Calm(steps) && k < |After(w, steps).sessions|
        ensures !Finished(After(w, steps).sessions[k])
      {
        HeldByIdWritesNothing(w, steps, k);
      }
    } else {
      var steps := PassingReplyFinishesAlone(w, k);
      assert Calm(steps) && Finished(After(w, steps).sessions[k]);
    }
  }

  // ----- a reply that the documented hold should have blocked

  /** A body starts and gets to its first line, when nothing holds it by ID. */
  lemma BodyAtFirstLine(w: World, id: Bytes, body: Bytes) returns (v: World)
    requires Reachable(w) && MayServe(w.gate.chaos.corruptBodyPercent, body, body) && IdWait(w.gate, id).None?
    ensures Reachable(v) && v.gate == w.gate && v.closed == w.closed
    ensures v.sessions == w.sessions + [Fresh(id, body, w.gate.chaos).(phase := Before(0))]
  {
    var k, x := |w.sessions|, Fresh(id, body, w.gate.chaos);
    StepStaysReachable(w, StartBody(id, body, body));
    var w1 := Apply(w, StartBody(id, body, body));
    assert w1.sessions == w.sessions + [x];
    StepStaysReachable(w1, AdvanceSession(k, Go));
    var w2 := Apply(w1, AdvanceSession(k, Go));
    assert w2.sessions == w.sessions + [x.(phase := StatusSent)];
    StepStaysReachable(w2, AdvanceSession(k, Go));
    v := Apply(w2, AdvanceSession(k, Go));
  }

  lemma AdmitOneLine(w: World, k: nat) returns (v: World)
    requires Reachable(w) && k < |w.sessions| && AtLine(w.sessions[k]) && IsGated(w.sessions[k]) && Spends(w.gate)
    ensures Reachable(v) && v.gate == AfterSpend(w.gate) && v.closed == w.closed
    ensures |v.sessions| == |w.sessions| && v.sessions == w.sessions[k := v.sessions[k]]
    ensures v.sessions[k].phase == Admitted(w.sessions[k].phase.line)
    ensures v.sessions[k].lines == w.sessions[k].lines && v.sessions[k].chaos == w.sessions[k].chaos
  {
    StepStaysReachable(w, AdvanceSession(k, Go));
    v := Apply(w, AdvanceSession(k, Go));
  }

  /** The shortest body there is with a line; no corruption changes it. */
  const ONE_LINE: Bytes := "x"

  lemma OneLineBody(percent: int)
    requires IsPercent(percent)
    ensures ContentLines(ONE_LINE) == [ONE_LINE] && MayServe(percent, ONE_LINE, ONE_LINE)
  {
    SplitWithoutLf(ONE_LINE);
  }

  /** One reply after the other takes a line of the budget, until none is left. */
  lemma {:induction false} SpendTheBudget(w: World, id: Bytes) returns (v: World)
    requires Reachable(w) && Validate(w.gate.chaos) && w.gate.chaos.holdBodyLines > 0
    requires !HoldsMessageId(w.gate.chaos, id) && w.gate.armed.Some? && 0 <= w.gate.remaining
    ensures Reachable(v) && v.gate == w.gate.(remaining := 0) && v.closed == w.closed
    ensures |w.sessions| <= |v.sessions| && forall k :: 0 <= k < |w.sessions| ==> v.sessions[k] == w.sessions[k]
    decreases w.gate.remaining
  {
    if w.gate.remaining == 0 {
      v := w;
    } else {
      OneLineBody(w.gate.chaos.corruptBodyPercent);
      var ready := BodyAtFirstLine(w, id, ONE_LINE);
      var spent := AdmitOneLine(ready, |w.sessions|);
      v := SpendTheBudget(spent, id);
    }
  }

  function Longest(ids: seq<Bytes>): (n: nat)
    ensures forall i :: 0 <= i < |ids| ==> |StripBrackets(ids[i])| <= n
  {
    if ids == [] then 0
    else
      var n := Longest(ids[1..]);
      assert forall i :: 0 < i < |ids| ==> ids[i] == ids[1..][i - 1];
      if |StripBrackets(ids[0])| > n then |StripBrackets(ids[0])| else n
  }

  /** Whatever a profile holds, some article is not named. */
  lemma SomeIdIsNotHeld(config: ChaosConfig) returns (id: Bytes)
    ensures !HoldsMessageId(config, id)
  {
    var n := 1 + Longest(config.holdMessageIds);
    id := seq(n, i => 'x');
    assert TrimSpace(id) == id;
    assert StripBrackets(id) == id;
  }

  /** A reply that started before the profile was installed is at its first line when the budget is used up. */
  lemma UngatedAtExhaustedHold(hold: ChaosConfig, id: Bytes, body: Bytes) returns (w: World)
    requires Validate(hold) && hold.holdBodyLines > 0
    ensures Reachable(w) && Exhausted(w) && w.gate.chaos == hold
    ensures |w.sessions| >= 1 && w.sessions[0] == Fresh(id, body, OFF).(phase := Before(0))
  {
    StartIsReachable();
    StartSessions();
    var started := BodyAtFirstLine(START, id, body);
    StepStaysReachable(started, InstallConfig(hold));
    var held := Apply(started, InstallConfig(hold));
    InstalledGate(started.gate, hold);
    var other := SomeIdIsNotHeld(hold);
    w := SpendTheBudget(held, other);
  }

  lemma OffEndsWell(x: Session)
    requires SessionInv(x) && Finished(x) && !x.phase.ShutDown? && x.chaos == OFF
    ensures x.out == StuffedBlock(x.body)
  {
    OutputIsPrefix(x);
  }

  /** The documented hold_body blocks every body. For every such profile, a reply that was started before it is
      served in full, up to its terminator, though the hold is armed and its budget used up all the while. */
  lemma ServedInFullThroughAnExhaustedHold(hold: ChaosConfig, id: Bytes, body: Bytes)
    returns (w: World, steps: seq<Step>)
    requires Validate(hold) && hold.holdBodyLines > 0
    ensures Reachable(w) && Exhausted(w) && w.gate.chaos == hold && |w.sessions| >= 1 && w.sessions[0].out == []
    ensures IsRun(w, steps) && StepsOf(steps, 0) && After(w, steps).gate == w.gate
    ensures |After(w, steps).sessions| >= 1 && After(w, steps).sessions[0].out == StuffedBlock(body)
  {
    w := UngatedAtExhaustedHold(hold, id, body);
    ReachableKeepsInv(w);
    steps := PassingReplyFinishesAlone(w, 0);
    RunKeepsInv(w, steps);
    OffEndsWell(After(w, steps).sessions[0]);
  }

  // ----- whose hold a waiting line waits for

  lemma NextLineBlocks(g: Gate, closed: bool, x: Session)
    requires GateInv(g) && g.armed.Some? && g.remaining == 0
    requires AtLine(x) && IsGated(x)
    ensures Advance(g, closed, x, Go).Some?
    ensures Advance(g, closed, x, Go).value.0 == g
    ensures Advance(g, closed, x, Go).value.1.id == x.id && Blocked(g, Advance(g, closed, x, Go).value.1)
  {}

  /** Line budgets are not what every held line waits for: a reply in flight when a configuration that only
      names another article replaces the budget is blocked by it at its next line. */
  lemma BlockedWithoutBudgetOrName(first: ChaosConfig, second: ChaosConfig, id: Bytes, body: Bytes) returns (w: World)
    requires Validate(first) && first.holdBodyLines > 0 && first.holdMessageIds == [] && first.corruptBodyPercent == 0
    requires Validate(second) && second.holdBodyLines == 0 && second.holdMessageIds != [] && !HoldsMessageId(second, id)
    requires |ContentLines(body)| > 0
    ensures Reachable(w) && w.gate.chaos == second && |w.sessions| == 1 && w.sessions[0].id == id
    ensures Blocked(w.gate, w.sessions[0])
  {
    StartIsReachable();
    StartSessions();
    StepStaysReachable(START, InstallConfig(first));
    var armed := Apply(START, InstallConfig(first));
    InstalledGate(START.gate, first);
    var v := BodyAtFirstLine(armed, id, body);
    StepStaysReachable(v, InstallConfig(second));
    var u := Apply(v, InstallConfig(second));
    ReachableKeepsInv(u);
    InstalledGate(v.gate, second);
    StepStaysReachable(u, AdvanceSession(0, Go));
    w := Apply(u, AdvanceSession(0, Go));
    NextLineBlocks(u.gate, u.closed, u.sessions[0]);
  }

  lemma StepClosesMore(w: World, step: Step, c: nat)
    requires Inv(w) && Enabled(w, step) && c in w.gate.closes
    ensures c in Apply(w, step).gate.closes
  {
    if step.InstallConfig? {
      InstallReleases(w.gate, step.config);
    }
  }

  lemma {:induction false} ClosedStays(w: World, steps: seq<Step>, c: nat)
    requires Inv(w) && IsRun(w, steps) && c in w.gate.closes
    ensures c in After(w, steps).gate.closes
    decreases |steps|
  {
    if steps != [] {
      StepClosesMore(w, steps[0], c);
      StepKeepsInv(w, steps[0]);
      ClosedStays(Apply(w, steps[0]), steps[1..], c);
    }
  }

  /** A step leaves the armed channel armed, with its budget if it has one, or closes it. */
  lemma StepKeepsBudgetOrCloses(w: World, step: Step, c: nat)
    requires Inv(w) && Enabled(w, step) && w.gate.armed == Some(c)
    ensures Apply(w, step).gate.armed == Some(c) || c in Apply(w, step).gate.closes
    ensures Apply(w, step).gate.armed == Some(c) && w.gate.chaos.holdBodyLines > 0 ==>
              Apply(w, step).gate.chaos.holdBodyLines > 0
  {
    if step.InstallConfig? {
      InstallReleases(w.gate, step.config);
      InstalledGate(w.gate, step.config);
    }
  }

  /** As long as a channel stays armed, a line budget never goes away. */
  lemma {:induction false} ArmedBudgetStays(w: World, steps: seq<Step>, c: nat)
    requires Inv(w) && IsRun(w, steps) && w.gate.armed == Some(c) == After(w, steps).gate.armed
    requires w.gate.chaos.holdBodyLines > 0
    ensures After(w, steps).gate.chaos.holdBodyLines > 0
    decreases |steps|
  {
    if steps != [] {
      var v := Apply(w, steps[0]);
      StepKeepsInv(w, steps[0]);
      StepKeepsBudgetOrCloses(w, steps[0], c);
      if v.gate.armed != Some(c) {
        ClosedStays(v, steps[1..], c);
        RunKeepsInv(w, steps);
        assert false;
      }
      ArmedBudgetStays(v, steps[1..], c);
    }
  }

  /** After some part of the run, this channel was armed and the live profile had a line budget. */
  ghost predicate HadBudget(steps: seq<Step>, c: nat, j: nat) {
    && j <= |steps| && IsRun(START, steps[..j])
    && After(START, steps[..j]).gate.armed == Some(c) && After(START, steps[..j]).gate.chaos.holdBodyLines > 0
  }

  /** A line blocked on a channel has a live line budget if and only if some profile that was live since that
      channel was armed had one. */
  lemma LiveBudgetOfABlockedLine(steps: seq<Step>, k: nat)
    requires IsRun(START, steps) && k < |After(START, steps).sessions|
    requires var w := After(START, steps); w.sessions[k].phase.WaitingLine? && Blocked(w.gate, w.sessions[k])
    ensures var w := After(START, steps);
            w.gate.chaos.holdBodyLines > 0 <==> exists j: nat :: HadBudget(steps, w.sessions[k].phase.channel, j)
  {
    var w := After(START, steps);
    var c := w.sessions[k].phase.channel;
    assert Reachable(w);
    BlockedBodiesWaitForTheLiveHold(w, k);
    if w.gate.chaos.holdBodyLines > 0 {
      assert steps[..|steps|] == steps;
      assert HadBudget(steps, c, |steps|);
    }
    forall j: nat | HadBudget(steps, c, j) ensures w.gate.chaos.holdBodyLines > 0 {
      RunSplit(START, steps, j);
      var u := After(START, steps[..j]);
      assert Reachable(u);
      ReachableKeepsInv(u);
      ArmedBudgetStays(u, steps[j..], c);
    }
  }

  /** That profile can come after the wait began: a line that began to wait under IDs alone is blocked under a
      live line budget once a profile that keeps those IDs brings one. */
  lemma BudgetAfterTheWaitBegan(first: ChaosConfig, second: ChaosConfig, id: Bytes, body: Bytes, lines: nat)
    returns (w: World)
    requires Validate(first) && first.holdBodyLines > 0 && first.holdMessageIds == [] && first.corruptBodyPercent == 0
    requires Validate(second) && second.holdBodyLines == 0 && second.holdMessageIds != [] && !HoldsMessageId(second, id)
    requires |ContentLines(body)| > 0 && lines > 0
    ensures Reachable(w) && |w.sessions| == 1 && w.gate.chaos.holdBodyLines == lines
    ensures Blocked(w.gate, w.sessions[0])
    ensures w.sessions[0].phase.WaitingLine? && !w.sessions[0].phase.budgeted
  {
    var v := BlockedWithoutBudgetOrName(first, second, id, body);
    var third := second.(holdBodyLines := lines);
    ReachableKeepsInv(v);
    StepStaysReachable(v, InstallConfig(third));
    InstallReleases(v.gate, third);
    w := Apply(v, InstallConfig(third));
  }
}
