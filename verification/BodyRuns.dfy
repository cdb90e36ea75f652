/** Runs of the whole server as far as BODY replies go: configurations installed, replies started, sessions
    stepping in any order, and the server closing, with the counters each of these moves. */
module BodyRuns {
  import opened ByteStrings
  import opened Wire
  import opened Chaos
  import opened HoldGates
  import opened Sums
  import opened BodySessions

  /** `bodyCounts` holds one entry per counted reply, and `transfers` how many were counted as transfers, both
      since the last reset of the metrics; what resets have cleared so far is kept in `forgottenCounts` and
      `forgottenTransfers`. `spentNow` counts the lines admitted from the budget since the last install,
      `spentTotal` and `installedTotal` over the whole run. */
  datatype World = World(
    gate: Gate,
    closed: bool,
    sessions: seq<Session>,
    bodyCounts: multiset<Bytes>,
    transfers: nat,
    forgottenCounts: multiset<Bytes>,
    forgottenTransfers: nat,
    spentNow: nat,
    spentTotal: nat,
    installedTotal: nat)

  const START := World(UNARMED, false, [], multiset{}, 0, multiset{}, 0, 0, 0, 0)

  datatype Step =
    | InstallConfig(config: ChaosConfig)
    | StartBody(id: Bytes, body: Bytes, served: Bytes)
    | AdvanceSession(k: nat, choice: Choice)
    | CloseServer
    | ResetMetrics

  /** One byte, flipped. */
  function CorruptAt(body: Bytes, position: nat): Bytes
    requires position < |body|
  {
    body[position := (255 - body[position] as int) as char]
  }

  /** The bodies a roll against the corruption percentage allows. */
  ghost predicate MayServe(percent: int, body: Bytes, served: Bytes) {
    || (MayMiss(percent) && served == body)
    || (MayHit(percent) && if |body| < 2 then served == body
                           else exists position :: 0 <= position < |body| && served == CorruptAt(body, position))
  }

  ghost predicate Enabled(w: World, step: Step) {
    match step
    case InstallConfig(config) => Validate(config)
    case StartBody(_, body, served) => MayServe(w.gate.chaos.corruptBodyPercent, body, served)
    case AdvanceSession(k, choice) =>
      k < |w.sessions| && Advance(w.gate, w.closed, w.sessions[k], choice).Some?
    case CloseServer => true
    case ResetMetrics => true
  }

  function Fresh(id: Bytes, served: Bytes, chaos: ChaosConfig): Session {
    Session(id, served, ContentLines(served), chaos, Snapped, [], 0)
  }

  ghost function Apply(w: World, step: Step): World
    requires Enabled(w, step)
  {
    match step
    case InstallConfig(config) =>
      w.(gate := Install(w.gate, config), spentNow := 0, installedTotal := w.installedTotal + config.holdBodyLines)
    case StartBody(id, _, served) => w.(sessions := w.sessions + [Fresh(id, served, w.gate.chaos)])
    case AdvanceSession(k, choice) =>
      var x := w.sessions[k];
      var (gate, y) := Advance(w.gate, w.closed, x, choice).value;
      var spends := if SpendsOne(w.gate, x) then 1 else 0;
      w.(gate := gate,
         sessions := w.sessions[k := y],
         bodyCounts := w.bodyCounts + if x.phase.Terminated? then multiset{x.id} else multiset{},
         transfers := w.transfers + (if x.phase.Counted? then 1 else 0),
         spentNow := w.spentNow + spends,
         spentTotal := w.spentTotal + spends)
    case CloseServer => w.(closed := true)
    case ResetMetrics =>
      w.(bodyCounts := multiset{},
         transfers := 0,
         forgottenCounts := w.forgottenCounts + w.bodyCounts,
         forgottenTransfers := w.forgottenTransfers + w.transfers)
  }

  // ----- what every step keeps

  predicate IsOpen(g: Gate, channel: nat) {
    g.armed == Some(channel)
  }

  /** A wait is for a channel that was made. While it is the armed one, the live configuration names the
      article of a body blocked by ID, and has a line budget if a line's wait began under one. */
  predicate WaitInv(g: Gate, x: Session) {
    match x.phase
    case WaitingId(channel) =>
      channel < g.made && (IsOpen(g, channel) ==> HoldsMessageId(g.chaos, x.id))
    case WaitingLine(_, channel, budgeted) =>
      channel < g.made && (IsOpen(g, channel) && budgeted ==> g.chaos.holdBodyLines > 0)
    case _ => true
  }

  function Spent(x: Session): nat {
    x.spent
  }

  function IsCounted(x: Session): nat {
    if x.phase.Counted? then 1 else 0
  }

  function IsRecorded(x: Session): nat {
    if x.phase.Recorded? then 1 else 0
  }

  /** The lines admitted from the budget since the last install are what is missing from it. */
  ghost predicate BudgetInv(w: World) {
    && w.spentNow + w.gate.remaining == w.gate.chaos.holdBodyLines
    && w.spentTotal + w.gate.remaining <= w.installedTotal
    && Sum(Spent, w.sessions) == w.spentTotal
  }

  /** The session's reply has been counted for this ID. */
  function CountedFor(id: Bytes): Session -> nat {
    (x: Session) => if (x.phase.Counted? || x.phase.Recorded?) && x.id == id then 1 else 0
  }

  /** Each counted reply has one entry for its own ID, and each recorded one is one transfer, forgotten or not. */
  ghost predicate MetricsInv(w: World) {
    && (forall id :: (w.bodyCounts + w.forgottenCounts)[id] == Sum(CountedFor(id), w.sessions))
    && |w.bodyCounts| + |w.forgottenCounts| == Sum(IsCounted, w.sessions) + Sum(IsRecorded, w.sessions)
    && w.transfers + w.forgottenTransfers == Sum(IsRecorded, w.sessions)
  }

  /** Only a server that closes shuts replies down. */
  predicate ClosedInv(closed: bool, sessions: seq<Session>) {
    forall k :: 0 <= k < |sessions| && sessions[k].phase.ShutDown? ==> closed
  }

  ghost predicate AllSessionsInv(g: Gate, sessions: seq<Session>) {
    forall j :: 0 <= j < |sessions| ==> SessionInv(sessions[j]) && WaitInv(g, sessions[j])
  }

  ghost predicate Inv(w: World) {
    && GateInv(w.gate)
    && AllSessionsInv(w.gate, w.sessions)
    && BudgetInv(w)
    && MetricsInv(w)
    && ClosedInv(w.closed, w.sessions)
  }

  lemma InstallKeepsWait(g: Gate, config: ChaosConfig, x: Session)
    requires GateInv(g) && Validate(config) && WaitInv(g, x)
    ensures WaitInv(Install(g, config), x)
  {
    InstallReleases(g, config);
    if x.phase.WaitingId? && IsOpen(Install(g, config), x.phase.channel) {
      assert IsOpen(g, x.phase.channel);
      var i :| 0 <= i < |g.chaos.holdMessageIds| && StripBrackets(g.chaos.holdMessageIds[i]) == StripBrackets(x.id);
      SameNameSameHold(config, g.chaos.holdMessageIds[i], x.id);
    }
  }

  lemma InstallKeepsAll(w: World, config: ChaosConfig)
    requires Inv(w) && Validate(config)
    ensures Inv(Apply(w, InstallConfig(config)))
  {
    InstallKeepsInv(w.gate, config);
    forall k | 0 <= k < |w.sessions| ensures WaitInv(Install(w.gate, config), w.sessions[k]) {
      InstallKeepsWait(w.gate, config, w.sessions[k]);
    }
  }

  lemma StartKeepsBudget(w: World, x: Session)
    requires BudgetInv(w) && x.spent == 0
    ensures BudgetInv(w.(sessions := w.sessions + [x]))
  {
    SumPush(Spent, w.sessions, x);
  }

  lemma StartKeepsMetrics(w: World, x: Session)
    requires MetricsInv(w) && x.phase.Snapped?
    ensures MetricsInv(w.(sessions := w.sessions + [x]))
  {
    SumPush(IsCounted, w.sessions, x);
    SumPush(IsRecorded, w.sessions, x);
    forall id ensures Sum(CountedFor(id), w.sessions + [x]) == Sum(CountedFor(id), w.sessions) {
      SumPush(CountedFor(id), w.sessions, x);
    }
  }

  lemma FreshInv(id: Bytes, served: Bytes, chaos: ChaosConfig)
    ensures SessionInv(Fresh(id, served, chaos))
  {}

  lemma StartKeepsAll(w: World, id: Bytes, body: Bytes, served: Bytes)
    requires Inv(w) && Enabled(w, StartBody(id, body, served))
    ensures Inv(Apply(w, StartBody(id, body, served)))
  {
    var x := Fresh(id, served, w.gate.chaos);
    StartKeepsBudget(w, x);
    StartKeepsMetrics(w, x);
    FreshInv(id, served, w.gate.chaos);
  }

  /** A wait begins on the armed channel, which for a wait by ID means the live configuration names it. */
  lemma AdvanceWait(g: Gate, closed: bool, x: Session, c: Choice)
    requires GateInv(g) && Advance(g, closed, x, c).Some?
    ensures WaitInv(g, Advance(g, closed, x, c).value.1)
  {}

  lemma SpendKeepsWait(g: Gate, x: Session)
    requires WaitInv(g, x)
    ensures WaitInv(AfterSpend(g), x)
  {}

  lemma AdvanceMetrics(g: Gate, closed: bool, x: Session, c: Choice)
    requires Advance(g, closed, x, c).Some?
    ensures var y := Advance(g, closed, x, c).value.1;
            && (x.phase.Terminated? <==> y.phase.Counted?)
            && (x.phase.Counted? <==> y.phase.Recorded?)
            && !x.phase.Recorded?
  {}

  lemma AdvanceKeepsBudget(w: World, k: nat, choice: Choice)
    requires BudgetInv(w) && Enabled(w, AdvanceSession(k, choice))
    ensures BudgetInv(Apply(w, AdvanceSession(k, choice)))
  {
    SumUpdate(Spent, w.sessions, k, Advance(w.gate, w.closed, w.sessions[k], choice).value.1);
  }

  lemma AdvanceKeepsTotals(w: World, k: nat, choice: Choice)
    requires MetricsInv(w) && Enabled(w, AdvanceSession(k, choice))
    ensures var v := Apply(w, AdvanceSession(k, choice));
            && |v.bodyCounts| + |v.forgottenCounts| == Sum(IsCounted, v.sessions) + Sum(IsRecorded, v.sessions)
            && v.transfers + v.forgottenTransfers == Sum(IsRecorded, v.sessions)
  {
    var y := Advance(w.gate, w.closed, w.sessions[k], choice).value.1;
    AdvanceMetrics(w.gate, w.closed, w.sessions[k], choice);
    SumUpdate(IsCounted, w.sessions, k, y);
    SumUpdate(IsRecorded, w.sessions, k, y);
  }

  lemma AdvanceCountsFor(g: Gate, closed: bool, x: Session, c: Choice, id: Bytes)
    requires Advance(g, closed, x, c).Some?
    ensures CountedFor(id)(Advance(g, closed, x, c).value.1)
         == CountedFor(id)(x) + if x.phase.Terminated? && x.id == id then 1 else 0
  {}

  lemma AdvanceKeepsCounts(w: World, k: nat, choice: Choice, id: Bytes)
    requires MetricsInv(w) && Enabled(w, AdvanceSession(k, choice))
    ensures var v := Apply(w, AdvanceSession(k, choice));
            (v.bodyCounts + v.forgottenCounts)[id] == Sum(CountedFor(id), v.sessions)
  {
    AdvanceCountsFor(w.gate, w.closed, w.sessions[k], choice, id);
    SumUpdate(CountedFor(id), w.sessions, k, Advance(w.gate, w.closed, w.sessions[k], choice).value.1);
    assert (w.bodyCounts + w.forgottenCounts)[id] == Sum(CountedFor(id), w.sessions);
  }

  lemma AdvanceKeepsMetrics(w: World, k: nat, choice: Choice)
    requires MetricsInv(w) && Enabled(w, AdvanceSession(k, choice))
    ensures MetricsInv(Apply(w, AdvanceSession(k, choice)))
  {
    var v := Apply(w, AdvanceSession(k, choice));
    AdvanceKeepsTotals(w, k, choice);
    forall id ensures (v.bodyCounts + v.forgottenCounts)[id] == Sum(CountedFor(id), v.sessions) {
      AdvanceKeepsCounts(w, k, choice, id);
    }
  }

  lemma AdvanceKeepsClosed(g: Gate, closed: bool, x: Session, c: Choice)
    requires Advance(g, closed, x, c).Some?
    ensures Advance(g, closed, x, c).value.1.phase.ShutDown? ==> closed
  {}

  /** The stepping session, on the gate it leaves behind. */
  lemma AdvanceKeepsOwn(g: Gate, closed: bool, x: Session, c: Choice)
    requires GateInv(g) && SessionInv(x) && Advance(g, closed, x, c).Some?
    ensures var (h, y) := Advance(g, closed, x, c).value; GateInv(h) && SessionInv(y) && WaitInv(h, y)
  {
    AdvanceKeepsOutput(g, closed, x, c);
    AdvanceKeepsRolls(g, closed, x, c);
    AdvanceWait(g, closed, x, c);
    SpendKeepsInv(g);
    SpendKeepsWait(g, Advance(g, closed, x, c).value.1);
  }

  lemma SpendKeepsSessions(g: Gate, sessions: seq<Session>, k: nat, y: Session)
    requires AllSessionsInv(g, sessions) && k < |sessions|
    ensures SessionInv(y) && WaitInv(g, y) ==> AllSessionsInv(g, sessions[k := y])
    ensures SessionInv(y) && WaitInv(AfterSpend(g), y) ==> AllSessionsInv(AfterSpend(g), sessions[k := y])
  {
    forall j | 0 <= j < |sessions| ensures WaitInv(AfterSpend(g), sessions[j]) {
      SpendKeepsWait(g, sessions[j]);
    }
  }

  lemma AdvanceKeepsSessions(w: World, k: nat, choice: Choice)
    requires Inv(w) && Enabled(w, AdvanceSession(k, choice))
    ensures var v := Apply(w, AdvanceSession(k, choice)); GateInv(v.gate) && AllSessionsInv(v.gate, v.sessions)
  {
    AdvanceKeepsOwn(w.gate, w.closed, w.sessions[k], choice);
    SpendKeepsSessions(w.gate, w.sessions, k, Advance(w.gate, w.closed, w.sessions[k], choice).value.1);
  }

  lemma AdvanceKeepsAll(w: World, k: nat, choice: Choice)
    requires Inv(w) && Enabled(w, AdvanceSession(k, choice))
    ensures Inv(Apply(w, AdvanceSession(k, choice)))
  {
    AdvanceKeepsSessions(w, k, choice);
    AdvanceKeepsClosed(w.gate, w.closed, w.sessions[k], choice);
    AdvanceKeepsBudget(w, k, choice);
    AdvanceKeepsMetrics(w, k, choice);
  }

  lemma ResetKeepsMetrics(w: World)
    requires MetricsInv(w)
    ensures MetricsInv(Apply(w, ResetMetrics))
  {
    assert multiset{} + (w.forgottenCounts + w.bodyCounts) == w.bodyCounts + w.forgottenCounts;
  }

  lemma StepKeepsInv(w: World, step: Step)
    requires Inv(w) && Enabled(w, step)
    ensures Inv(Apply(w, step))
  {
    match step
    case InstallConfig(config) => InstallKeepsAll(w, config);
    case StartBody(id, body, served) => StartKeepsAll(w, id, body, served);
    case AdvanceSession(k, choice) => AdvanceKeepsAll(w, k, choice);
    case CloseServer =>
    case ResetMetrics => ResetKeepsMetrics(w);
  }

  // ----- runs

  ghost predicate IsRun(w: World, steps: seq<Step>)
    decreases |steps|
  {
    steps == [] || (Enabled(w, steps[0]) && IsRun(Apply(w, steps[0]), steps[1..]))
  }

  ghost function After(w: World, steps: seq<Step>): World
    requires IsRun(w, steps)
    decreases |steps|
  {
    if steps == [] then w else After(Apply(w, steps[0]), steps[1..])
  }

  lemma {:induction false} RunKeepsInv(w: World, steps: seq<Step>)
    requires Inv(w) && IsRun(w, steps)
    ensures Inv(After(w, steps))
    decreases |steps|
  {
    if steps != [] {
      StepKeepsInv(w, steps[0]);
      RunKeepsInv(Apply(w, steps[0]), steps[1..]);
    }
  }

  /** A run can be cut anywhere. */
  lemma {:induction false} RunSplit(w: World, steps: seq<Step>, j: nat)
    requires IsRun(w, steps) && j <= |steps|
    ensures IsRun(w, steps[..j]) && IsRun(After(w, steps[..j]), steps[j..])
    ensures After(After(w, steps[..j]), steps[j..]) == After(w, steps)
    decreases j
  {
    if j == 0 {
      assert steps[..0] == [] && steps[0..] == steps;
    } else {
      RunSplit(Apply(w, steps[0]), steps[1..], j - 1);
      assert steps[..j][1..] == steps[1..][..j - 1];
      assert steps[j..] == steps[1..][j - 1..];
    }
  }

  // ----- corruption

  /** A corrupted body has the same length and differs from the article's in exactly one byte, whose every bit is
      flipped; corrupting that byte again gives the article's body back. */
  lemma CorruptionIsOneByte(body: Bytes, position: nat)
    requires position < |body|
    ensures var served := CorruptAt(body, position);
            && |served| == |body|
            && (forall i :: 0 <= i < |body| ==> (served[i] == body[i] <==> i != position))
            && served[position] as int + body[position] as int == 255
            && CorruptAt(served, position) == body
  {}

  /** Corruption at 0 per cent leaves the body alone, and at 100 flips a byte of every body that has two. */
  lemma FixedRollsFixTheBody(percent: int, body: Bytes, served: Bytes)
    requires MayServe(percent, body, served)
    ensures percent <= 0 || |body| < 2 ==> served == body
    ensures percent >= 100 && |body| >= 2 ==>
              exists position :: 0 <= position < |body| && served == CorruptAt(body, position)
  {}
}
