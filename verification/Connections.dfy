/** Connections: admission by the number the atomic add returned, counted sessions, and their recorded peak.
    Every atomic operation, and every read of the live limit, is one step of one connection. */
module Connections {
  import opened ByteStrings
  import opened Sums
  import opened MaxRegisters

  datatype Phase =
    | Ticketed
    | Checking
    | Admitted
    | Refused
    | Counted(recorder: nat)
    | Declared
    | Ending
    | Gone(refused: bool)

  /** A connection once the atomic add has given it its number; `limit` is the limit it was checked against. */
  datatype Conn = Conn(phase: Phase, ticket: int, limit: int)

  /** Connections stand in the order of their atomic adds; `knocking` have been counted as attempts but not yet
      added themselves. `carried` are the undecided attempts the last reset of the counters forgot. */
  datatype World = World(
    limit: int,
    knocking: nat,
    conns: seq<Conn>,
    active: int,
    sessions: int,
    peak: Register,
    attempted: nat,
    accepted: nat,
    rejected: nat,
    carried: nat)

  datatype Move =
    | SetLimit(limit: int)
    | Knock
    | TakeTicket
    | ReadLimit(k: nat)
    | Decide(k: nat)
    | FirstCommand(k: nat, command: Bytes, argument: Bytes)
    | Record(r: nat)
    | EndSession(k: nat)
    | Leave(k: nat)
    | ResetMetrics

  /** A connection's MODE CONTROL. */
  predicate IsControlDeclaration(command: Bytes, argument: Bytes) {
    command == "MODE" && EqualFold(TrimSpace(argument), "CONTROL")
  }

  predicate IsAt(w: World, k: nat, phase: Phase) {
    k < |w.conns| && w.conns[k].phase == phase
  }

  predicate Enabled(w: World, m: Move) {
    match m
    case SetLimit(limit) => limit >= 0
    case Knock => true
    case TakeTicket => w.knocking > 0
    case ReadLimit(k) => IsAt(w, k, Ticketed)
    case Decide(k) => IsAt(w, k, Checking)
    case FirstCommand(k, _, _) => IsAt(w, k, Admitted)
    case Record(r) => CanStep(w.peak, r)
    case EndSession(k) =>
      && k < |w.conns| && w.conns[k].phase.Counted?
      && !CanStep(w.peak, w.conns[k].phase.recorder)
    case Leave(k) => IsAt(w, k, Admitted) || IsAt(w, k, Refused) || IsAt(w, k, Declared) || IsAt(w, k, Ending)
    case ResetMetrics => true
  }

  function Moved(w: World, k: nat, phase: Phase): World
    requires k < |w.conns|
  {
    w.(conns := w.conns[k := w.conns[k].(phase := phase)])
  }

  function IsUndecided(c: Conn): nat {
    if c.phase.Ticketed? || c.phase.Checking? then 1 else 0
  }

  function Apply(w: World, m: Move): World
    requires Enabled(w, m)
  {
    match m
    case SetLimit(limit) => w.(limit := limit)
    case Knock => w.(knocking := w.knocking + 1, attempted := w.attempted + 1)
    case TakeTicket =>
      w.(knocking := w.knocking - 1, active := w.active + 1, conns := w.conns + [Conn(Ticketed, w.active + 1, 0)])
    case ReadLimit(k) => w.(conns := w.conns[k := Conn(Checking, w.conns[k].ticket, w.limit)])
    case Decide(k) =>
      var limit := w.conns[k].limit;
      if limit > 0 && w.conns[k].ticket > limit then Moved(w, k, Refused).(rejected := w.rejected + 1)
      else Moved(w, k, Admitted).(accepted := w.accepted + 1)
    case FirstCommand(k, command, argument) =>
      if IsControlDeclaration(command, argument) then Moved(w, k, Declared)
      else
        Moved(w, k, Counted(|w.peak.recorders|)).(sessions := w.sessions + 1, peak := Begin(w.peak, w.sessions + 1))
    case Record(r) => w.(peak := Step(w.peak, r))
    case EndSession(k) => Moved(w, k, Ending).(sessions := w.sessions - 1)
    case Leave(k) => Moved(w, k, Gone(w.conns[k].phase.Refused?)).(active := w.active - 1)
    case ResetMetrics =>
      w.(peak := w.peak.(value := w.sessions), attempted := 0, accepted := 0, rejected := 0,
         carried := w.knocking + Sum(IsUndecided, w.conns))
  }

  function HasSlot(c: Conn): nat {
    if c.phase.Gone? then 0 else 1
  }

  function IsCounted(c: Conn): nat {
    if c.phase.Counted? then 1 else 0
  }

  /** Accepted and still alive. */
  function IsServed(c: Conn): nat {
    if c.phase.Admitted? || c.phase.Counted? || c.phase.Declared? || c.phase.Ending? then 1 else 0
  }

  // ----- what every move keeps

  /** The number a connection was given is at least its rank among those that still have a slot. */
  predicate Ranked(conns: seq<Conn>) {
    forall k :: 0 <= k < |conns| && !conns[k].phase.Gone? ==> Sum(HasSlot, conns[..k + 1]) <= conns[k].ticket
  }

  predicate IsDecided(c: Conn) {
    !c.phase.Ticketed? && !c.phase.Checking?
  }

  /** Refused, whether it has left since or not. */
  predicate WasRefused(c: Conn) {
    c.phase.Refused? || (c.phase.Gone? && c.phase.refused)
  }

  /** A decided connection was refused exactly when its number was above the positive limit it read. */
  predicate Judged(c: Conn) {
    IsDecided(c) ==> (WasRefused(c) <==> 0 < c.limit < c.ticket)
  }

  predicate SlotsInv(w: World) {
    && w.active == Sum(HasSlot, w.conns)
    && Ranked(w.conns)
    && forall k :: 0 <= k < |w.conns| ==> Judged(w.conns[k])
  }

  predicate CountersInv(w: World) {
    && w.sessions == Sum(IsCounted, w.conns)
    && w.attempted + w.carried == w.accepted + w.rejected + w.knocking + Sum(IsUndecided, w.conns)
  }

  predicate Inv(w: World) {
    SlotsInv(w) && CountersInv(w) && Sound(w.peak)
  }

  lemma {:induction false} SumPointwise<X>(f: X -> nat, xs: seq<X>, ys: seq<X>)
    requires |xs| == |ys| && forall j :: 0 <= j < |xs| ==> f(ys[j]) <= f(xs[j])
    ensures Sum(f, ys) <= Sum(f, xs)
  {
    if xs != [] {
      SumPointwise(f, xs[1..], ys[1..]);
    }
  }

  lemma RankedUpdate(conns: seq<Conn>, k: nat, c: Conn)
    requires Ranked(conns) && k < |conns| && c.ticket == conns[k].ticket && HasSlot(c) <= HasSlot(conns[k])
    ensures Ranked(conns[k := c])
  {
    var after := conns[k := c];
    forall j | 0 <= j < |after| && !after[j].phase.Gone? ensures Sum(HasSlot, after[..j + 1]) <= after[j].ticket {
      SumPointwise(HasSlot, conns[..j + 1], after[..j + 1]);
    }
  }

  lemma RankedPush(conns: seq<Conn>, c: Conn)
    requires Ranked(conns) && c.ticket == Sum(HasSlot, conns) + 1 && !c.phase.Gone?
    ensures Ranked(conns + [c])
  {
    var after := conns + [c];
    forall j | 0 <= j < |after| && !after[j].phase.Gone? ensures Sum(HasSlot, after[..j + 1]) <= after[j].ticket {
      if j < |conns| {
        assert after[..j + 1] == conns[..j + 1];
      } else {
        assert after[..j + 1] == conns + [c];
        SumPush(HasSlot, conns, c);
      }
    }
  }

  /** The move is one of a single connection. */
  predicate MovesConn(m: Move) {
    m.ReadLimit? || m.Decide? || m.FirstCommand? || m.EndSession? || m.Leave?
  }

  /** A connection that does not take a slot anew keeps the slots in order. */
  lemma SlotsAfterMove(conns: seq<Conn>, k: nat, c: Conn)
    requires Ranked(conns) && k < |conns| && c.ticket == conns[k].ticket && HasSlot(c) <= HasSlot(conns[k])
    ensures Ranked(conns[k := c])
    ensures Sum(HasSlot, conns[k := c]) == Sum(HasSlot, conns) - HasSlot(conns[k]) + HasSlot(c)
  {
    SumUpdate(HasSlot, conns, k, c);
    RankedUpdate(conns, k, c);
  }

  lemma ConnMoveKeepsSlots(w: World, m: Move)
    requires SlotsInv(w) && MovesConn(m) && Enabled(w, m)
    ensures SlotsInv(Apply(w, m))
  {
    var v := Apply(w, m);
    var c := v.conns[m.k];
    assert v.conns == w.conns[m.k := c];
    assert Judged(w.conns[m.k]);
    SlotsAfterMove(w.conns, m.k, c);
  }

  lemma ConnMoveKeepsCounters(w: World, m: Move)
    requires CountersInv(w) && MovesConn(m) && Enabled(w, m)
    ensures CountersInv(Apply(w, m))
  {
    var v := Apply(w, m);
    var c := v.conns[m.k];
    assert v.conns == w.conns[m.k := c];
    SumUpdate(IsCounted, w.conns, m.k, c);
    SumUpdate(IsUndecided, w.conns, m.k, c);
  }

  lemma TicketKeepsSlots(w: World)
    requires SlotsInv(w) && w.knocking > 0
    ensures SlotsInv(Apply(w, TakeTicket))
  {
    var c := Conn(Ticketed, w.active + 1, 0);
    RankedPush(w.conns, c);
    SumPush(HasSlot, w.conns, c);
  }

  lemma TicketKeepsCounters(w: World)
    requires CountersInv(w) && w.knocking > 0
    ensures CountersInv(Apply(w, TakeTicket))
  {
    var c := Conn(Ticketed, w.active + 1, 0);
    SumPush(IsCounted, w.conns, c);
    SumPush(IsUndecided, w.conns, c);
  }

  lemma MoveKeepsSound(w: World, m: Move)
    requires Sound(w.peak) && Enabled(w, m)
    ensures Sound(Apply(w, m).peak)
  {
    if m.Record? {
      StepRaises(w.peak, m.r);
    }
  }

  lemma MoveKeepsInv(w: World, m: Move)
    requires Inv(w) && Enabled(w, m)
    ensures Inv(Apply(w, m))
  {
    MoveKeepsSound(w, m);
    if MovesConn(m) {
      ConnMoveKeepsSlots(w, m);
      ConnMoveKeepsCounters(w, m);
    } else if m.TakeTicket? {
      TicketKeepsSlots(w);
      TicketKeepsCounters(w);
    }
  }
}
