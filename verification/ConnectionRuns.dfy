/** What holds of connections over whole runs, however their arrivals, checks, commands and departures
    interleave. */
module ConnectionRuns {
  import opened Sums
  import opened MaxRegisters
  import opened Connections

  function Start(limit: int): World {
    World(limit, 0, [], 0, 0, Register(0, []), 0, 0, 0, 0)
  }

  predicate IsRun(w: World, moves: seq<Move>)
    decreases |moves|
  {
    moves == [] || (Enabled(w, moves[0]) && IsRun(Apply(w, moves[0]), moves[1..]))
  }

  function Run(w: World, moves: seq<Move>): World
    requires IsRun(w, moves)
    decreases |moves|
  {
    if moves == [] then w else Run(Apply(w, moves[0]), moves[1..])
  }

  lemma StartInv(limit: int)
    ensures Inv(Start(limit))
  {}

  lemma {:induction false} RunKeepsInv(w: World, moves: seq<Move>)
    requires Inv(w) && IsRun(w, moves)
    ensures Inv(Run(w, moves))
    decreases |moves|
  {
    if moves != [] {
      MoveKeepsInv(w, moves[0]);
      RunKeepsInv(Apply(w, moves[0]), moves[1..]);
    }
  }

  // ----- the counters

  lemma {:induction false} CountedHaveSlots(conns: seq<Conn>)
    ensures Sum(IsCounted, conns) + Sum(IsUndecided, conns) <= Sum(HasSlot, conns)
  {
    if conns != [] {
      CountedHaveSlots(conns[1..]);
    }
  }

  predicate NoReset(moves: seq<Move>) {
    forall i :: 0 <= i < |moves| ==> !moves[i].ResetMetrics?
  }

  lemma {:induction false} NothingCarried(w: World, moves: seq<Move>)
    requires IsRun(w, moves) && NoReset(moves)
    ensures Run(w, moves).carried == w.carried
    decreases |moves|
  {
    if moves != [] {
      NothingCarried(Apply(w, moves[0]), moves[1..]);
    }
  }

  /** In every state of every run: the sessions are the live connections whose first command declared no
      control channel, never more than the active connections; and the attempts counted since the last reset
      are the accepted, the rejected and the undecided ones, less those undecided at the reset. */
  lemma CountersInEveryState(limit: int, moves: seq<Move>)
    requires IsRun(Start(limit), moves)
    ensures var w := Run(Start(limit), moves);
            && w.active == Sum(HasSlot, w.conns) && w.sessions == Sum(IsCounted, w.conns) && 0 <= w.sessions <= w.active
            && w.attempted == w.accepted + w.rejected + w.knocking + Sum(IsUndecided, w.conns) - w.carried
            && (NoReset(moves) ==> w.carried == 0)
  {
    StartInv(limit);
    RunKeepsInv(Start(limit), moves);
    if NoReset(moves) {
      NothingCarried(Start(limit), moves);
    }
    CountedHaveSlots(Run(Start(limit), moves).conns);
  }

  // ----- admission

  lemma {:induction false} ServedHaveSlots(conns: seq<Conn>)
    ensures Sum(IsServed, conns) <= Sum(HasSlot, conns)
  {
    if conns != [] {
      ServedHaveSlots(conns[1..]);
    }
  }

  lemma RankedPrefix(conns: seq<Conn>, n: nat)
    requires Ranked(conns) && n <= |conns|
    ensures Ranked(conns[..n])
  {
    var some := conns[..n];
    forall k | 0 <= k < n && !some[k].phase.Gone? ensures Sum(HasSlot, some[..k + 1]) <= some[k].ticket {
      assert some[..k + 1] == conns[..k + 1];
    }
  }

  /** The served connection that came last was given a number no smaller than how many are served. */
  lemma {:induction false} ServedWithinLimit(conns: seq<Conn>, most: int)
    requires Ranked(conns) && most >= 0
    requires forall k :: 0 <= k < |conns| && IsServed(conns[k]) == 1 ==> conns[k].ticket <= most
    ensures Sum(IsServed, conns) <= most
    decreases |conns|
  {
    if conns != [] {
      var n := |conns| - 1;
      if IsServed(conns[n]) == 1 {
        ServedHaveSlots(conns);
        assert conns[..n + 1] == conns;
      } else {
        RankedPrefix(conns, n);
        ServedWithinLimit(conns[..n], most);
        SumPush(IsServed, conns[..n], conns[n]);
        assert conns[..n] + [conns[n]] == conns;
      }
    }
  }

  /** Every limit read so far or to be read is positive and no larger than this. */
  predicate Limited(w: World, most: int) {
    && 0 < w.limit <= most
    && forall k :: 0 <= k < |w.conns| && !w.conns[k].phase.Ticketed? ==> 0 < w.conns[k].limit <= most
  }

  predicate SetsWithin(moves: seq<Move>, most: int) {
    forall i :: 0 <= i < |moves| && moves[i].SetLimit? ==> 0 < moves[i].limit <= most
  }

  lemma MoveKeepsLimited(w: World, m: Move, most: int)
    requires Limited(w, most) && Enabled(w, m) && (m.SetLimit? ==> 0 < m.limit <= most)
    ensures Limited(Apply(w, m), most)
  {
    var v := Apply(w, m);
    if MovesConn(m) {
      assert forall k :: 0 <= k < |w.conns| && k != m.k ==> v.conns[k] == w.conns[k];
    }
  }

  lemma {:induction false} RunKeepsLimited(w: World, moves: seq<Move>, most: int)
    requires Limited(w, most) && IsRun(w, moves) && SetsWithin(moves, most)
    ensures Limited(Run(w, moves), most)
    decreases |moves|
  {
    if moves != [] {
      MoveKeepsLimited(w, moves[0], most);
      RunKeepsLimited(Apply(w, moves[0]), moves[1..], most);
    }
  }

  /** With max_conns always positive and at most M, never more than M accepted connections are alive, though
      each one compared only the number it was given with the limit it happened to read. */
  lemma AtMostTheLimitAreServed(limit: int, moves: seq<Move>, most: int)
    requires 0 < limit <= most && IsRun(Start(limit), moves) && SetsWithin(moves, most)
    ensures Sum(IsServed, Run(Start(limit), moves).conns) <= most
  {
    var w := Run(Start(limit), moves);
    StartInv(limit);
    RunKeepsInv(Start(limit), moves);
    RunKeepsLimited(Start(limit), moves, most);
    forall k | 0 <= k < |w.conns| && IsServed(w.conns[k]) == 1 ensures w.conns[k].ticket <= most {
      assert Judged(w.conns[k]);
    }
    ServedWithinLimit(w.conns, most);
  }

  /** A state some run leads to. */
  ghost predicate Reachable(limit: int, w: World) {
    exists moves :: IsRun(Start(limit), moves) && Run(Start(limit), moves) == w
  }

  lemma {:induction false} RunOneMore(w: World, moves: seq<Move>, m: Move)
    requires IsRun(w, moves) && Enabled(Run(w, moves), m)
    ensures IsRun(w, moves + [m]) && Run(w, moves + [m]) == Apply(Run(w, moves), m)
    decreases |moves|
  {
    if moves == [] {
      assert IsRun(Apply(w, m), []);
      assert (moves + [m])[1..] == [];
    } else {
      assert (moves + [m])[1..] == moves[1..] + [m];
      RunOneMore(Apply(w, moves[0]), moves[1..], m);
    }
  }

  lemma StepStaysReachable(limit: int, w: World, m: Move)
    requires Reachable(limit, w) && Enabled(w, m)
    ensures Reachable(limit, Apply(w, m))
  {
    var moves :| IsRun(Start(limit), moves) && Run(Start(limit), moves) == w;
    RunOneMore(Start(limit), moves, m);
  }

  lemma StartIsReachable(limit: int)
    ensures Reachable(limit, Start(limit))
  {
    assert IsRun(Start(limit), []);
  }

  /** One more connection has arrived and taken the next number. */
  lemma Arrive(limit: int, w: World) returns (v: World)
    requires Reachable(limit, w)
    ensures Reachable(limit, v)
    ensures v.conns == w.conns + [Conn(Ticketed, w.active + 1, 0)] && v.active == w.active + 1 && v.limit == w.limit
  {
    StepStaysReachable(limit, w, Knock);
    var knocked := Apply(w, Knock);
    StepStaysReachable(limit, knocked, TakeTicket);
    v := Apply(knocked, TakeTicket);
  }

  /** It has been checked against the live limit. */
  lemma Check(limit: int, w: World, k: nat) returns (v: World)
    requires Reachable(limit, w) && IsAt(w, k, Ticketed)
    ensures Reachable(limit, v) && v.active == w.active && v.limit == w.limit
    ensures var passed := w.limit <= 0 || w.conns[k].ticket <= w.limit;
            v.conns == w.conns[k := Conn(if passed then Admitted else Refused, w.conns[k].ticket, w.limit)]
  {
    StepStaysReachable(limit, w, ReadLimit(k));
    var checking := Apply(w, ReadLimit(k));
    StepStaysReachable(limit, checking, Decide(k));
    v := Apply(checking, Decide(k));
    assert v.conns == w.conns[k := v.conns[k]];
  }

  lemma MoveKeepsTicket(w: World, m: Move, k: nat)
    requires k < |w.conns| && Enabled(w, m)
    ensures k < |Apply(w, m).conns| && Apply(w, m).conns[k].ticket == w.conns[k].ticket
  {}

  lemma {:induction false} RunKeepsTicket(w: World, moves: seq<Move>, k: nat)
    requires k < |w.conns| && IsRun(w, moves)
    ensures k < |Run(w, moves).conns| && Run(w, moves).conns[k].ticket == w.conns[k].ticket
    decreases |moves|
  {
    if moves != [] {
      MoveKeepsTicket(w, moves[0], k);
      RunKeepsTicket(Apply(w, moves[0]), moves[1..], k);
    }
  }

  /** Who is refused: in any run, the connection that arrives at a point of it is decided, at any later point, as
      refused if and only if the limit it read is positive and the slots held when it arrived were at least as
      many. Those slots count connections that are refused, undecided or about to leave like any other. */
  lemma RefusedExactlyWhenFullOnArrival(limit: int, before: seq<Move>, after: seq<Move>)
    requires IsRun(Start(limit), before) && Run(Start(limit), before).knocking > 0
    requires IsRun(Apply(Run(Start(limit), before), TakeTicket), after)
    ensures var arrival := Run(Start(limit), before);
            var w := Run(Apply(arrival, TakeTicket), after);
            var k := |arrival.conns|;
            && k < |w.conns| && w.conns[k].ticket == Sum(HasSlot, arrival.conns) + 1
            && (IsDecided(w.conns[k]) ==>
                  (WasRefused(w.conns[k]) <==> 0 < w.conns[k].limit <= Sum(HasSlot, arrival.conns)))
  {
    var arrival := Run(Start(limit), before);
    var arrived := Apply(arrival, TakeTicket);
    StartInv(limit);
    RunKeepsInv(Start(limit), before);
    MoveKeepsInv(arrival, TakeTicket);
    RunKeepsInv(arrived, after);
    RunKeepsTicket(arrived, after, |arrival.conns|);
    assert Judged(Run(arrived, after).conns[|arrival.conns|]);
  }

  /** As many connections as one likes up to the limit are let in. */
  lemma {:induction false} LetIn(limit: int, n: nat) returns (w: World)
    requires 0 < limit && n <= limit
    ensures Reachable(limit, w) && w.limit == limit && w.active == n && |w.conns| == n
    ensures forall k :: 0 <= k < n ==> w.conns[k].phase.Admitted?
  {
    if n == 0 {
      StartIsReachable(limit);
      w := Start(limit);
    } else {
      var fewer := LetIn(limit, n - 1);
      var arrived := Arrive(limit, fewer);
      w := Check(limit, arrived, n - 1);
    }
  }

  /** A limit that is lowered can be exceeded: those let in before stay. */
  lemma LoweredLimitIsExceeded(limit: int) returns (w: World)
    requires 1 < limit
    ensures Reachable(limit, w) && w.limit == 1 < |w.conns|
    ensures forall k :: 0 <= k < |w.conns| ==> w.conns[k].phase.Admitted?
  {
    var full := LetIn(limit, limit);
    StepStaysReachable(limit, full, SetLimit(1));
    w := Apply(full, SetLimit(1));
  }

  /** And all of them leave. */
  lemma {:induction false} AllLeave(limit: int, w: World, n: nat) returns (v: World)
    requires Reachable(limit, w) && n <= |w.conns| && forall k :: 0 <= k < n ==> w.conns[k].phase.Admitted?
    ensures Reachable(limit, v) && v.limit == w.limit && |v.conns| == |w.conns|
    ensures forall k :: 0 <= k < n ==> v.conns[k].phase.Gone?
    ensures forall k :: n <= k < |w.conns| ==> v.conns[k] == w.conns[k]
    decreases n
  {
    if n == 0 {
      v := w;
    } else {
      StepStaysReachable(limit, w, Leave(n - 1));
      var left := Apply(w, Leave(n - 1));
      v := AllLeave(limit, left, n - 1);
    }
  }

  /** So the limit is kept by refusing too many rather than too few. Whatever the limit, a connection can be
      refused when it is the only one left. */
  lemma RefusedThoughAlone(limit: int) returns (w: World)
    requires 0 < limit
    ensures Reachable(limit, w) && w.limit == limit && |w.conns| == limit + 1
    ensures w.conns[limit].phase.Refused? && w.conns[limit].limit == limit
    ensures forall k :: 0 <= k < limit ==> w.conns[k].phase.Gone?
  {
    var full := LetIn(limit, limit);
    var arrived := Arrive(limit, full);
    var alone := AllLeave(limit, arrived, limit);
    w := Check(limit, alone, limit);
  }

  // ----- the peak

  /** The highest number of sessions in any state of the run. */
  function HighestSessions(w: World, moves: seq<Move>): int
    requires IsRun(w, moves)
    decreases |moves|
  {
    if moves == [] then w.sessions else Max(w.sessions, HighestSessions(Apply(w, moves[0]), moves[1..]))
  }

  lemma MoveKeepsPeak(w: World, m: Move, top: int)
    requires Sound(w.peak) && IsTop(w.peak, top) && w.sessions <= top
    requires Enabled(w, m) && !m.ResetMetrics?
    ensures IsTop(Apply(w, m).peak, Max(top, Apply(w, m).sessions))
    ensures w.peak.value <= Apply(w, m).peak.value
  {
    if m.Record? {
      StepKeepsTop(w.peak, m.r, top);
      StepRaises(w.peak, m.r);
    } else if m.FirstCommand? {
      BeginRaisesTop(w.peak, w.sessions + 1, top);
    }
  }

  lemma HighestFromHere(w: World, moves: seq<Move>)
    requires IsRun(w, moves)
    ensures w.sessions <= HighestSessions(w, moves)
  {}

  /** Until the counters are reset, the largest of the peak and the values still being recorded is the largest
      of what it was and the highest number of sessions since; and the peak never falls. */
  lemma {:induction false} PeakFollowsSessions(w: World, moves: seq<Move>, top: int)
    requires Sound(w.peak) && IsTop(w.peak, top) && w.sessions <= top
    requires IsRun(w, moves) && NoReset(moves)
    ensures IsTop(Run(w, moves).peak, Max(top, HighestSessions(w, moves)))
    ensures w.peak.value <= Run(w, moves).peak.value
    decreases |moves|
  {
    if moves != [] {
      var v := Apply(w, moves[0]);
      MoveKeepsPeak(w, moves[0], top);
      MoveKeepsSound(w, moves[0]);
      HighestFromHere(v, moves[1..]);
      PeakFollowsSessions(v, moves[1..], Max(top, v.sessions));
    }
  }

  /** At quiescence the peak is the highest number of sessions there ever were. */
  lemma PeakIsTheHighest(limit: int, moves: seq<Move>)
    requires IsRun(Start(limit), moves) && NoReset(moves) && Quiet(Run(Start(limit), moves).peak)
    ensures Run(Start(limit), moves).peak.value == HighestSessions(Start(limit), moves)
  {
    PeakFollowsSessions(Start(limit), moves, 0);
    HighestFromHere(Start(limit), moves);
    QuietIsTop(Run(Start(limit), moves).peak, HighestSessions(Start(limit), moves));
  }

  /** The largest of a number and the values still being recorded. */
  function LargestPending(rs: seq<Recorder>, floor: int): (top: int)
    ensures floor <= top
    ensures forall i :: 0 <= i < |rs| && Pending(rs[i]) ==> rs[i].v <= top
    ensures top == floor || exists i :: 0 <= i < |rs| && Pending(rs[i]) && rs[i].v == top
  {
    if rs == [] then floor
    else
      var more := LargestPending(rs[1..], floor);
      assert forall i :: 0 < i < |rs| ==> rs[i] == rs[1..][i - 1];
      assert more == floor || exists i :: 0 < i < |rs| && Pending(rs[i]) && rs[i].v == more by {
        if more != floor {
          var i :| 0 <= i < |rs[1..]| && Pending(rs[1..][i]) && rs[1..][i].v == more;
          assert rs[i + 1].v == more;
        }
      }
      if Pending(rs[0]) && rs[0].v > more then rs[0].v else more
  }

  /** Since any reset, once recorders are done, the peak is the largest of the sessions there were and of the values
      the reset caught on their way; so it is exactly the highest number of sessions since if and only if none of
      those was larger. */
  lemma PeakSinceReset(w: World, moves: seq<Move>)
    requires Sound(w.peak) && IsRun(Apply(w, ResetMetrics), moves) && NoReset(moves)
    requires Quiet(Run(Apply(w, ResetMetrics), moves).peak)
    ensures var v := Apply(w, ResetMetrics);
            var highest := HighestSessions(v, moves);
            && Run(v, moves).peak.value == Max(LargestPending(w.peak.recorders, w.sessions), highest)
            && (Run(v, moves).peak.value == highest <==>
                forall i :: 0 <= i < |w.peak.recorders| && Pending(w.peak.recorders[i]) ==>
                  w.peak.recorders[i].v <= highest)
  {
    var v := Apply(w, ResetMetrics);
    var top := LargestPending(w.peak.recorders, w.sessions);
    assert IsTop(v.peak, top);
    PeakFollowsSessions(v, moves, top);
    HighestFromHere(v, moves);
    QuietIsTop(Run(v, moves).peak, Max(top, HighestSessions(v, moves)));
  }
}
