/** A shared number that many recorders raise with load and compare-and-swap, each retrying until the number is
    at least its own: the metrics' `peak` and `bodyLast`. Each load and each compare-and-swap is one step. */
module MaxRegisters {
  import opened Sums

  /** A recorder about to load, one that has loaded something smaller than its own value, and one that is done. */
  datatype Recorder = Wants(v: int) | Loaded(v: int, seen: int) | Done(v: int)

  datatype Register = Register(value: int, recorders: seq<Recorder>)

  predicate Pending(r: Recorder) {
    !r.Done?
  }

  function Begin(m: Register, v: int): Register {
    m.(recorders := m.recorders + [Wants(v)])
  }

  /** The load, and the return when the number is large enough already. */
  function Load(value: int, v: int): Recorder {
    if v <= value then Done(v) else Loaded(v, value)
  }

  predicate CanStep(m: Register, i: nat) {
    i < |m.recorders| && Pending(m.recorders[i])
  }

  /** One step of a recorder's loop. */
  function Step(m: Register, i: nat): Register
    requires CanStep(m, i)
  {
    match m.recorders[i]
    case Wants(v) => m.(recorders := m.recorders[i := Load(m.value, v)])
    case Loaded(v, seen) =>
      if m.value == seen then Register(v, m.recorders[i := Done(v)]) else m.(recorders := m.recorders[i := Wants(v)])
    case Done(_) => m
  }

  // ----- what the number is

  /** Top is the largest of the number and the values still being recorded. */
  predicate IsTop(m: Register, top: int) {
    && m.value <= top
    && (forall i :: 0 <= i < |m.recorders| && Pending(m.recorders[i]) ==> m.recorders[i].v <= top)
    && (m.value == top || exists i :: 0 <= i < |m.recorders| && Pending(m.recorders[i]) && m.recorders[i].v == top)
  }

  /** A recorder goes on only when what it saw was smaller than its own value. */
  predicate Sound(m: Register) {
    forall i :: 0 <= i < |m.recorders| && m.recorders[i].Loaded? ==> m.recorders[i].seen < m.recorders[i].v
  }

  /** Of the recorders that began since the number was last set back: what one saw was there, and what is done
      is in. */
  predicate Timely(m: Register, since: nat) {
    && (forall i :: since <= i < |m.recorders| && m.recorders[i].Loaded? ==> m.recorders[i].seen <= m.value)
    && (forall i :: since <= i < |m.recorders| && m.recorders[i].Done? ==> m.recorders[i].v <= m.value)
  }

  function Max(a: int, b: int): int {
    if a < b then b else a
  }

  lemma BeginRaisesTop(m: Register, v: int, top: int)
    requires IsTop(m, top)
    ensures IsTop(Begin(m, v), Max(top, v))
  {
    var n := Begin(m, v);
    assert n.recorders[|m.recorders|] == Wants(v);
    forall i | 0 <= i < |m.recorders| ensures n.recorders[i] == m.recorders[i] {}
  }

  /** No step loses the top: the number rises to a pending value, or the pending value was no larger. */
  lemma StepKeepsTop(m: Register, i: nat, top: int)
    requires CanStep(m, i) && IsTop(m, top) && Sound(m)
    ensures IsTop(Step(m, i), top)
  {
    var n := Step(m, i);
    assert forall j :: 0 <= j < |m.recorders| && j != i ==> n.recorders[j] == m.recorders[j];
    if m.value != top {
      var k :| 0 <= k < |m.recorders| && Pending(m.recorders[k]) && m.recorders[k].v == top;
      assert n.value != top ==> Pending(n.recorders[k]) && n.recorders[k].v == top;
    }
  }

  /** The number never falls. */
  lemma StepRaises(m: Register, i: nat)
    requires CanStep(m, i) && Sound(m)
    ensures m.value <= Step(m, i).value && Sound(Step(m, i))
  {}

  lemma StepKeepsTimely(m: Register, i: nat, since: nat)
    requires CanStep(m, i) && Sound(m) && Timely(m, since)
    ensures Timely(Step(m, i), since)
  {
    StepRaises(m, i);
  }

  /** A failed compare-and-swap of a recorder that began since the number was last set back means that the number
      has risen since it was loaded. */
  lemma RetryMeansRisen(m: Register, i: nat, since: nat)
    requires CanStep(m, i) && Timely(m, since) && since <= i
    ensures m.recorders[i].Loaded? && Step(m, i).recorders[i].Wants? ==> m.recorders[i].seen < m.value
  {
    assert m.recorders[i].Loaded? ==> m.recorders[i].seen <= m.value;
  }

  // ----- every recorder finishes

  function Above(v: int, value: int): nat {
    if v > value then v - value else 0
  }

  /** The loads and swaps a recorder can still take while no one begins. */
  function WorkLeft(value: int, r: Recorder): nat {
    match r
    case Done(_) => 0
    case Wants(v) => 2 * Above(v, value) + 1
    case Loaded(v, seen) => if seen == value then 2 * Above(v, value) else 2 * Above(v, value) + 2
  }

  function Work(m: Register): nat {
    Sum(r => WorkLeft(m.value, r), m.recorders)
  }

  lemma WorkFalls(low: int, high: int, r: Recorder)
    requires low <= high && (r.Loaded? ==> r.seen < r.v)
    ensures WorkLeft(high, r) <= WorkLeft(low, r)
  {}

  lemma {:induction false} SumFalls<X>(f: X -> nat, g: X -> nat, xs: seq<X>)
    requires forall j :: 0 <= j < |xs| ==> g(xs[j]) <= f(xs[j])
    ensures Sum(g, xs) <= Sum(f, xs)
  {
    if xs != [] {
      SumFalls(f, g, xs[1..]);
    }
  }

  lemma OwnWorkFalls(m: Register, i: nat)
    requires CanStep(m, i) && Sound(m)
    ensures WorkLeft(Step(m, i).value, Step(m, i).recorders[i]) < WorkLeft(Step(m, i).value, m.recorders[i])
  {}

  lemma StepUsesWork(m: Register, i: nat)
    requires CanStep(m, i) && Sound(m)
    ensures Work(Step(m, i)) < Work(m)
  {
    var n := Step(m, i);
    var f := (r: Recorder) => WorkLeft(m.value, r);
    var g := (r: Recorder) => WorkLeft(n.value, r);
    StepRaises(m, i);
    forall j | 0 <= j < |m.recorders| ensures g(m.recorders[j]) <= f(m.recorders[j]) {
      WorkFalls(m.value, n.value, m.recorders[j]);
    }
    SumUpdate(g, m.recorders, i, n.recorders[i]);
    SumFalls(f, g, m.recorders);
    OwnWorkFalls(m, i);
  }

  /** No recorder has a step left. */
  predicate Quiet(m: Register) {
    forall i :: 0 <= i < |m.recorders| ==> !Pending(m.recorders[i])
  }

  predicate IsSchedule(m: Register, steps: seq<nat>)
    decreases |steps|
  {
    steps == [] || (CanStep(m, steps[0]) && IsSchedule(Step(m, steps[0]), steps[1..]))
  }

  function After(m: Register, steps: seq<nat>): Register
    requires IsSchedule(m, steps)
    decreases |steps|
  {
    if steps == [] then m else After(Step(m, steps[0]), steps[1..])
  }

  lemma QuietIsTop(m: Register, top: int)
    requires IsTop(m, top)
    ensures Quiet(m) ==> m.value == top
  {}

  /** However the recorders' loads and swaps interleave, they come to an end, and once none is left to take
      the number is the largest of the old number and all the values recorded. */
  lemma {:induction false} RecordersFinish(m: Register, steps: seq<nat>, top: int)
    requires Sound(m) && IsTop(m, top) && IsSchedule(m, steps)
    ensures |steps| + Work(After(m, steps)) <= Work(m)
    ensures Quiet(After(m, steps)) ==> After(m, steps).value == top
    decreases |steps|
  {
    if steps == [] {
      QuietIsTop(m, top);
    } else {
      StepUsesWork(m, steps[0]);
      StepRaises(m, steps[0]);
      StepKeepsTop(m, steps[0], top);
      RecordersFinish(Step(m, steps[0]), steps[1..], top);
    }
  }

  // ----- while others begin

  /** A recorder begins, or one takes a step. */
  datatype Act = Arrive(v: int) | Advance(r: nat)

  predicate CanAct(m: Register, act: Act) {
    act.Advance? ==> CanStep(m, act.r)
  }

  function Acted(m: Register, act: Act): Register
    requires CanAct(m, act)
  {
    match act
    case Arrive(v) => Begin(m, v)
    case Advance(r) => Step(m, r)
  }

  predicate IsBusyRun(m: Register, acts: seq<Act>)
    decreases |acts|
  {
    acts == [] || (CanAct(m, acts[0]) && IsBusyRun(Acted(m, acts[0]), acts[1..]))
  }

  /** How many of the steps are this recorder's own. */
  function OwnSteps(acts: seq<Act>, r: nat): nat {
    if acts == [] then 0 else (if acts[0] == Advance(r) then 1 else 0) + OwnSteps(acts[1..], r)
  }

  lemma ActUsesWork(m: Register, act: Act, r: nat)
    requires Sound(m) && r < |m.recorders| && CanAct(m, act)
    ensures Sound(Acted(m, act)) && r < |Acted(m, act).recorders|
    ensures WorkLeft(Acted(m, act).value, Acted(m, act).recorders[r]) + (if act == Advance(r) then 1 else 0)
         <= WorkLeft(m.value, m.recorders[r])
  {
    if act.Advance? {
      StepRaises(m, act.r);
      WorkFalls(m.value, Step(m, act.r).value, m.recorders[r]);
      if act.r == r {
        OwnWorkFalls(m, r);
      }
    }
  }

  /** However many recorders begin meanwhile and however they interleave, a recorder takes no more steps than its
      distance from the number allows when it is looked at. */
  lemma {:induction false} EachRecorderFinishes(m: Register, acts: seq<Act>, r: nat)
    requires Sound(m) && r < |m.recorders| && IsBusyRun(m, acts)
    ensures OwnSteps(acts, r) <= WorkLeft(m.value, m.recorders[r])
    decreases |acts|
  {
    if acts != [] {
      ActUsesWork(m, acts[0], r);
      EachRecorderFinishes(Acted(m, acts[0]), acts[1..], r);
    }
  }

  function AfterActs(m: Register, acts: seq<Act>): Register
    requires IsBusyRun(m, acts)
    decreases |acts|
  {
    if acts == [] then m else AfterActs(Acted(m, acts[0]), acts[1..])
  }

  /** The largest of a number and the values of those that begin. */
  function TopOf(top: int, acts: seq<Act>): int
    decreases |acts|
  {
    if acts == [] then top
    else TopOf(if acts[0].Arrive? then Max(top, acts[0].v) else top, acts[1..])
  }

  /** And whenever no recorder is on its way, the number is the largest of the old one and of all the values ever
      brought. */
  lemma {:induction false} BusyRunKeepsTop(m: Register, acts: seq<Act>, top: int)
    requires Sound(m) && IsTop(m, top) && IsBusyRun(m, acts)
    ensures IsTop(AfterActs(m, acts), TopOf(top, acts))
    ensures Quiet(AfterActs(m, acts)) ==> AfterActs(m, acts).value == TopOf(top, acts)
    decreases |acts|
  {
    if acts == [] {
      QuietIsTop(m, top);
    } else {
      match acts[0]
      case Arrive(v) =>
        BeginRaisesTop(m, v, top);
        BusyRunKeepsTop(Begin(m, v), acts[1..], Max(top, v));
      case Advance(r) =>
        StepRaises(m, r);
        StepKeepsTop(m, r, top);
        BusyRunKeepsTop(Step(m, r), acts[1..], top);
    }
  }
}
