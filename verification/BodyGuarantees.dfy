/** What holds of BODY replies in every state some run of the server leads to. */
module BodyGuarantees {
  import opened ByteStrings
  import opened Wire
  import opened Chaos
  import opened HoldGates
  import opened Sums
  import opened BodySessions
  import opened BodyRuns

  /** A state some run leads to. */
  ghost predicate Reachable(w: World) {
    exists steps :: IsRun(START, steps) && After(START, steps) == w
  }

  lemma StartGate()
    ensures GateInv(START.gate)
  {
    assert !HoldsSomething(OFF);
  }

  lemma StartBudget()
    ensures BudgetInv(START)
  {}

  lemma StartMetrics()
    ensures MetricsInv(START)
  {}

  lemma StartSessions()
    ensures |START.sessions| == 0
  {}

  lemma InvWithoutSessions(w: World)
    requires |w.sessions| == 0 && GateInv(w.gate) && BudgetInv(w) && MetricsInv(w)
    ensures Inv(w)
  {}

  lemma StartInv()
    ensures Inv(START)
  {
    StartGate();
    StartBudget();
    StartMetrics();
    StartSessions();
    InvWithoutSessions(START);
  }

  /** In every state of every run, however configurations, sessions and the closing interleave, the invariant
      holds: channel discipline, waits, output, budget and counters. */
  lemma ReachableKeepsInv(w: World)
    requires Reachable(w)
    ensures Inv(w)
  {
    var steps :| IsRun(START, steps) && After(START, steps) == w;
    StartInv();
    RunKeepsInv(START, steps);
  }

  lemma {:induction false} RunOneMore(w: World, steps: seq<Step>, step: Step)
    requires IsRun(w, steps) && Enabled(After(w, steps), step)
    ensures IsRun(w, steps + [step]) && After(w, steps + [step]) == Apply(After(w, steps), step)
    decreases |steps|
  {
    if |steps| == 0 {
      assert (steps + [step])[1..] == [];
      assert IsRun(Apply(w, step), []);
    } else {
      assert (steps + [step])[1..] == steps[1..] + [step];
      RunOneMore(Apply(w, steps[0]), steps[1..], step);
    }
  }

  lemma StepStaysReachable(w: World, step: Step)
    requires Reachable(w) && Enabled(w, step)
    ensures Reachable(Apply(w, step))
  {
    var steps :| IsRun(START, steps) && After(START, steps) == w;
    RunOneMore(START, steps, step);
  }

  lemma StartIsReachable()
    ensures Reachable(START)
  {
    assert IsRun(START, []) && After(START, []) == START;
  }

  /** What any run has written for any reply is a prefix of what the fast path writes for the same body, and
      is all of it exactly when the reply ended well. */
  lemma EveryReplyIsAPrefix(w: World, k: nat)
    requires Reachable(w) && k < |w.sessions|
    ensures w.sessions[k].out <= StuffedBlock(w.sessions[k].body)
    ensures w.sessions[k].out == StuffedBlock(w.sessions[k].body) <==> FullyTerminated(w.sessions[k])
  {
    ReachableKeepsInv(w);
    OutputIsPrefix(w.sessions[k]);
  }

  /** Channel discipline in every reachable state: armed exactly when something is held, and then the armed
      channel is the only one not closed; each closing happened once. */
  lemma ChannelsInEveryState(w: World)
    requires Reachable(w)
    ensures w.gate.armed.Some? <==> w.gate.chaos.holdBodyLines > 0 || w.gate.chaos.holdMessageIds != []
    ensures w.gate.armed.Some? ==> w.gate.armed.value < w.gate.made
    ensures forall c: nat :: w.gate.closes[c] == if c < w.gate.made && w.gate.armed != Some(c) then 1 else 0
  {
    ReachableKeepsInv(w);
  }

  /** The channel a session waits on. */
  function WaitsOn(x: Session): Option<nat> {
    match x.phase
    case WaitingId(channel) => Some(channel)
    case WaitingLine(_, channel, _) => Some(channel)
    case _ => None
  }

  /** The session waits on a channel that has not been closed. */
  predicate Blocked(g: Gate, x: Session) {
    WaitsOn(x).Some? && WaitsOn(x).value !in g.closes
  }

  /** A blocked body waits on the one armed channel, so the live configuration holds something: the very
      article, for a body blocked by ID; a line budget, for a line whose wait began under one. */
  lemma BlockedBodiesWaitForTheLiveHold(w: World, k: nat)
    requires Reachable(w) && k < |w.sessions| && Blocked(w.gate, w.sessions[k])
    ensures w.gate.armed == WaitsOn(w.sessions[k]) && HoldsSomething(w.gate.chaos)
    ensures w.sessions[k].phase.WaitingId? ==> HoldsMessageId(w.gate.chaos, w.sessions[k].id)
    ensures w.sessions[k].phase.WaitingLine? && w.sessions[k].phase.budgeted ==> w.gate.chaos.holdBodyLines > 0
  {
    ReachableKeepsInv(w);
    assert SessionInv(w.sessions[k]) && WaitInv(w.gate, w.sessions[k]);
  }

  /** The budget as it stands: the lines admitted since the last install and what remains make up the
      installed budget, and over the whole run no more lines were admitted than budgets installed. */
  lemma BudgetIsConserved(w: World)
    requires Reachable(w)
    ensures 0 <= w.gate.remaining <= w.gate.chaos.holdBodyLines
    ensures w.spentNow == w.gate.chaos.holdBodyLines - w.gate.remaining
    ensures Sum(Spent, w.sessions) == w.spentTotal <= w.installedTotal
  {
    ReachableKeepsInv(w);
  }
}
