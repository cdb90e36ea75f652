/** Installing a profile while lines wait: what wakes them, and what a refilled budget is served to. */
module BodyRefills {
  import opened ByteStrings
  import opened Wire
  import opened Chaos
  import opened HoldGates
  import opened BodySessions
  import opened BodyRuns
  import opened BodyGuarantees
  import opened BodyProgress
  import opened BodyHolds

  // ----- when a channel stays armed

  /** Every profile installed holds on to what its predecessor held. */
  ghost predicate KeepsHolding(previous: ChaosConfig, steps: seq<Step>)
    decreases |steps|
  {
    steps == [] ||
    match steps[0]
    case InstallConfig(config) =>
      HoldsOn(previous, config) && KeepsHolding(config, steps[1..])
    case _ => KeepsHolding(previous, steps[1..])
  }

  lemma StepKeepsArmed(w: World, step: Step, c: nat)
    requires Inv(w) && Enabled(w, step) && w.gate.armed == Some(c)
    ensures step.InstallConfig? ==>
              && Apply(w, step).gate.chaos == step.config
              && (Apply(w, step).gate.armed == Some(c) <==> HoldsOn(w.gate.chaos, step.config))
    ensures !step.InstallConfig? ==>
              Apply(w, step).gate.armed == Some(c) && Apply(w, step).gate.chaos == w.gate.chaos
    ensures Apply(w, step).gate.armed != Some(c) ==> c in Apply(w, step).gate.closes
  {
    if step.InstallConfig? {
      InstallReleases(w.gate, step.config);
      KeptExactlyWhenHeldOn(w.gate, step.config);
      InstalledGate(w.gate, step.config);
    }
  }

  /** A channel armed now is armed after a run if and only if every profile installed in it holds on to what its
      predecessor held: each article, a line budget, and something at all. */
  lemma {:induction false} ChannelStaysArmed(w: World, steps: seq<Step>, c: nat)
    requires Inv(w) && IsRun(w, steps) && w.gate.armed == Some(c)
    ensures After(w, steps).gate.armed == Some(c) <==> KeepsHolding(w.gate.chaos, steps)
    decreases |steps|
  {
    if steps != [] {
      var v := Apply(w, steps[0]);
      StepKeepsInv(w, steps[0]);
      StepKeepsArmed(w, steps[0], c);
      if v.gate.armed == Some(c) {
        ChannelStaysArmed(v, steps[1..], c);
      } else {
        ClosedStays(v, steps[1..], c);
        RunKeepsInv(w, steps);
      }
    }
  }

  lemma GoesOnWhenClosed(g: Gate, closed: bool, x: Session, c: nat)
    requires WaitsOn(x) == Some(c)
    ensures Advance(g, closed, x, Go).Some? <==> c in g.closes
  {}

  lemma MakesMore(w: World, step: Step)
    requires Enabled(w, step)
    ensures w.gate.made <= Apply(w, step).gate.made
  {}

  lemma {:induction false} ChannelWasMade(w: World, steps: seq<Step>, c: nat)
    requires Inv(w) && IsRun(w, steps) && c < w.gate.made
    ensures c < After(w, steps).gate.made
    decreases |steps|
  {
    if steps != [] {
      StepKeepsInv(w, steps[0]);
      MakesMore(w, steps[0]);
      ChannelWasMade(Apply(w, steps[0]), steps[1..], c);
    }
  }

  /** A reply that waits on an open channel, and still does so after a run, can go on then if and only if some
      profile installed in the run let go of something its predecessor held, or held nothing. */
  lemma WokenExactlyByLettingGo(w: World, steps: seq<Step>, k: nat)
    requires Reachable(w) && IsRun(w, steps) && k < |w.sessions| && Blocked(w.gate, w.sessions[k])
    requires k < |After(w, steps).sessions| && After(w, steps).sessions[k].phase == w.sessions[k].phase
    ensures var v := After(w, steps);
            Advance(v.gate, v.closed, v.sessions[k], Go).Some? <==> !KeepsHolding(w.gate.chaos, steps)
  {
    var c := WaitsOn(w.sessions[k]).value;
    ReachableKeepsInv(w);
    BlockedBodiesWaitForTheLiveHold(w, k);
    ChannelStaysArmed(w, steps, c);
    RunKeepsInv(w, steps);
    ChannelWasMade(w, steps, c);
    GoesOnWhenClosed(After(w, steps).gate, After(w, steps).closed, After(w, steps).sessions[k], c);
  }

  // ----- a refill wakes no one

  /** The documented hold_body serves that many more lines and then blocks. For a line already blocked it serves
      none: a profile with a budget that lets go of nothing refills the gate and leaves the line blocked, without a step
      to take until the server closes or a later profile lets go of something. */
  lemma RefillWakesNoOne(w: World, k: nat, config: ChaosConfig)
    requires Reachable(w) && !w.closed && k < |w.sessions| && Blocked(w.gate, w.sessions[k])
    requires Validate(config) && config.holdBodyLines > 0 && HoldsOn(w.gate.chaos, config)
    ensures var v := Apply(w, InstallConfig(config));
            && Reachable(v) && v.sessions == w.sessions && Blocked(v.gate, v.sessions[k])
            && v.gate.remaining == config.holdBodyLines > 0
            && forall c :: Advance(v.gate, v.closed, v.sessions[k], c).None?
  {
    ReachableKeepsInv(w);
    BlockedBodiesWaitForTheLiveHold(w, k);
    StepStaysReachable(w, InstallConfig(config));
    InstallReleases(w.gate, config);
    KeptExactlyWhenHeldOn(w.gate, config);
    InstalledGate(w.gate, config);
  }

  lemma BlockAtLine(w: World, k: nat) returns (v: World)
    requires Reachable(w) && k < |w.sessions| && AtLine(w.sessions[k]) && IsGated(w.sessions[k])
    requires w.gate.armed.Some? && w.gate.remaining == 0
    ensures Reachable(v) && v.gate == w.gate && v.closed == w.closed && |v.sessions| == |w.sessions|
    ensures Blocked(v.gate, v.sessions[k])
  {
    ReachableKeepsInv(w);
    NextLineBlocks(w.gate, w.closed, w.sessions[k]);
    StepStaysReachable(w, AdvanceSession(k, Go));
    v := Apply(w, AdvanceSession(k, Go));
  }

  /** The profile's budget has been used up, and the reply to start next is blocked at its first line. */
  lemma BlockedAtTheEndOfABudget(hold: ChaosConfig, id: Bytes, body: Bytes) returns (w: World, k: nat)
    requires Validate(hold) && hold.holdBodyLines > 0 && !HoldsMessageId(hold, id)
    requires |ContentLines(body)| > 0 && MayServe(hold.corruptBodyPercent, body, body)
    ensures Reachable(w) && !w.closed && w.gate.chaos == hold
    ensures k < |w.sessions| && Blocked(w.gate, w.sessions[k])
  {
    StartIsReachable();
    StepStaysReachable(START, InstallConfig(hold));
    var armed := Apply(START, InstallConfig(hold));
    InstalledGate(START.gate, hold);
    var spent := SpendTheBudget(armed, id);
    var ready := BodyAtFirstLine(spent, id, body);
    k := |spent.sessions|;
    w := BlockAtLine(ready, k);
  }

  lemma SameHolds(hold: ChaosConfig, refill: ChaosConfig)
    requires refill.holdBodyLines > 0 && refill.holdMessageIds == hold.holdMessageIds
    ensures HoldsOn(hold, refill)
  {}

  /** So there is such a state for every profile with a budget and every refill of it. */
  lemma BlockedUnderARefilledBudget(hold: ChaosConfig, lines: nat) returns (w: World, k: nat)
    requires Validate(hold) && hold.holdBodyLines > 0 && lines > 0
    ensures Reachable(w) && w.gate.chaos == hold.(holdBodyLines := lines) && w.gate.remaining == lines
    ensures k < |w.sessions| && Blocked(w.gate, w.sessions[k])
    ensures forall c :: Advance(w.gate, w.closed, w.sessions[k], c).None?
  {
    var id := SomeIdIsNotHeld(hold);
    OneLineBody(hold.corruptBodyPercent);
    var blocked;
    blocked, k := BlockedAtTheEndOfABudget(hold, id, ONE_LINE);
    var refill := hold.(holdBodyLines := lines);
    SameHolds(hold, refill);
    RefillWakesNoOne(blocked, k, refill);
    InstalledGate(blocked.gate, refill);
    w := Apply(blocked, InstallConfig(refill));
  }

  // ----- the whole budget is served before a new wait begins

  /** The reply was waiting like this before. */
  predicate WaitedAlready(before: seq<Session>, k: nat, x: Session) {
    k < |before| && before[k].phase == x.phase
  }

  /** A line waits on the armed channel only if the budget is used up, or it did before. */
  predicate WaitsWithReason(g: Gate, before: seq<Session>, k: nat, x: Session) {
    x.phase.WaitingLine? && g.armed == Some(x.phase.channel) ==> g.remaining == 0 || WaitedAlready(before, k, x)
  }

  ghost predicate AllWaitWithReason(g: Gate, before: seq<Session>, sessions: seq<Session>) {
    forall k :: 0 <= k < |sessions| ==> WaitsWithReason(g, before, k, sessions[k])
  }

  lemma OwnWaitHasReason(g: Gate, closed: bool, x: Session, c: Choice, before: seq<Session>, k: nat)
    requires GateInv(g) && Advance(g, closed, x, c).Some?
    ensures var (h, y) := Advance(g, closed, x, c).value; WaitsWithReason(h, before, k, y)
  {}

  lemma SpendingKeepsReason(g: Gate, before: seq<Session>, k: nat, x: Session)
    requires WaitsWithReason(g, before, k, x)
    ensures WaitsWithReason(AfterSpend(g), before, k, x)
  {}

  lemma StepKeepsReasons(w: World, step: Step, before: seq<Session>)
    requires Inv(w) && Enabled(w, step) && !step.InstallConfig? && AllWaitWithReason(w.gate, before, w.sessions)
    ensures AllWaitWithReason(Apply(w, step).gate, before, Apply(w, step).sessions)
  {
    if step.AdvanceSession? {
      var v := Apply(w, step);
      OwnWaitHasReason(w.gate, w.closed, w.sessions[step.k], step.choice, before, step.k);
      forall k | 0 <= k < |v.sessions| ensures WaitsWithReason(v.gate, before, k, v.sessions[k]) {
        SpendingKeepsReason(w.gate, before, k, w.sessions[k]);
      }
    }
  }

  lemma {:induction false} RunKeepsReasons(w: World, steps: seq<Step>, before: seq<Session>)
    requires Inv(w) && IsRun(w, steps) && NoInstalls(steps) && AllWaitWithReason(w.gate, before, w.sessions)
    ensures AllWaitWithReason(After(w, steps).gate, before, After(w, steps).sessions)
    ensures After(w, steps).gate.chaos == w.gate.chaos
    decreases |steps|
  {
    if steps != [] {
      StepKeepsReasons(w, steps[0], before);
      StepKeepsInv(w, steps[0]);
      RunKeepsReasons(Apply(w, steps[0]), steps[1..], before);
    }
  }

  lemma NewWaitUsedUp(u: World, before: seq<Session>, k: nat)
    requires Inv(u) && AllWaitWithReason(u.gate, before, u.sessions)
    requires k < |u.sessions| && u.sessions[k].phase.WaitingLine? && Blocked(u.gate, u.sessions[k])
    ensures u.spentNow == u.gate.chaos.holdBodyLines || WaitedAlready(before, k, u.sessions[k])
  {
    assert WaitsWithReason(u.gate, before, k, u.sessions[k]) && WaitInv(u.gate, u.sessions[k]);
  }

  /** From an install on and until the next one: a line that waits on the armed channel came to wait after exactly
      the installed number of lines had been served from the budget, unless it had been waiting there since before
      the install. */
  lemma BudgetIsServedBeforeANewWait(w: World, config: ChaosConfig, steps: seq<Step>, k: nat)
    requires Reachable(w) && Validate(config) && IsRun(Apply(w, InstallConfig(config)), steps) && NoInstalls(steps)
    requires var u := After(Apply(w, InstallConfig(config)), steps);
             k < |u.sessions| && u.sessions[k].phase.WaitingLine? && Blocked(u.gate, u.sessions[k])
    ensures var u := After(Apply(w, InstallConfig(config)), steps);
            u.spentNow == config.holdBodyLines || WaitedAlready(w.sessions, k, u.sessions[k])
  {
    var v := Apply(w, InstallConfig(config));
    ReachableKeepsInv(w);
    StepKeepsInv(w, InstallConfig(config));
    InstalledGate(w.gate, config);
    RunKeepsReasons(v, steps, w.sessions);
    RunKeepsInv(v, steps);
    var u := After(v, steps);
    NewWaitUsedUp(u, w.sessions, k);
  }
}
