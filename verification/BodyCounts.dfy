/** The metrics of BODY replies, between resets and over whole runs. A recorder counts its article, then its
    transfer, and other sessions and resets may step in between. */
module BodyCounts {
  import opened ByteStrings
  import opened Sums
  import opened BodySessions
  import opened BodyRuns
  import opened BodyGuarantees

  /** The full terminator is out, and the transfer not counted yet. */
  function IsPendingRecord(x: Session): nat {
    if x.phase.Terminated? || x.phase.Counted? then 1 else 0
  }

  function IsFull(x: Session): nat {
    if FullyTerminated(x) then 1 else 0
  }

  lemma {:induction false} SumOfParts(xs: seq<Session>)
    ensures Sum(IsRecorded, xs) + Sum(IsPendingRecord, xs) == Sum(IsFull, xs)
  {
    if xs != [] {
      SumOfParts(xs[1..]);
    }
  }

  predicate NoResets(steps: seq<Step>) {
    forall i :: 0 <= i < |steps| ==> !steps[i].ResetMetrics?
  }

  lemma {:induction false} NothingForgotten(w: World, steps: seq<Step>)
    requires IsRun(w, steps) && NoResets(steps)
    ensures After(w, steps).forgottenCounts == w.forgottenCounts
    ensures After(w, steps).forgottenTransfers == w.forgottenTransfers
    decreases |steps|
  {
    if steps != [] {
      NothingForgotten(Apply(w, steps[0]), steps[1..]);
    }
  }

  /** The recorders between their two steps. */
  function Between(w: World): int {
    Sum(IsCounted, w.sessions)
  }

  /** Over a whole run, with what resets cleared added back: each ID has one count per reply of that article that
      is past its first step, and the transfers are the replies with a full terminator, less the recorders on
      their way. */
  lemma RecordersInEveryState(w: World)
    requires Reachable(w)
    ensures forall id :: w.bodyCounts[id] + w.forgottenCounts[id] == Sum(CountedFor(id), w.sessions)
    ensures w.transfers + w.forgottenTransfers + Sum(IsPendingRecord, w.sessions) == Sum(IsFull, w.sessions)
    ensures |w.bodyCounts| + |w.forgottenCounts| == w.transfers + w.forgottenTransfers + Between(w)
  {
    ReachableKeepsInv(w);
    SumOfParts(w.sessions);
    forall id ensures w.bodyCounts[id] + w.forgottenCounts[id] == Sum(CountedFor(id), w.sessions) {
      assert (w.bodyCounts + w.forgottenCounts)[id] == Sum(CountedFor(id), w.sessions);
    }
  }

  /** Until the first reset. */
  lemma CountsUntilReset(steps: seq<Step>)
    requires IsRun(START, steps) && NoResets(steps)
    ensures var w := After(START, steps);
            && (forall id :: w.bodyCounts[id] == Sum(CountedFor(id), w.sessions))
            && w.transfers + Sum(IsPendingRecord, w.sessions) == Sum(IsFull, w.sessions)
            && |w.bodyCounts| - w.transfers == Between(w)
  {
    NothingForgotten(START, steps);
    RecordersInEveryState(After(START, steps));
  }

  lemma {:induction false} RunStaysReachable(w: World, steps: seq<Step>)
    requires Reachable(w) && IsRun(w, steps)
    ensures Reachable(After(w, steps))
    decreases |steps|
  {
    if steps != [] {
      StepStaysReachable(w, steps[0]);
      RunStaysReachable(Apply(w, steps[0]), steps[1..]);
    }
  }

  /** Between resets: the transfers since the last one are the replies fully terminated since, with the recorders
      the reset caught on their way and without those on their way now; each ID is counted once per reply of that
      article whose first step came since; and the counts are ahead of the transfers by the recorders between
      their two steps now, less those the reset caught there. */
  lemma CountsBetweenResets(w: World, steps: seq<Step>)
    requires Reachable(w) && IsRun(Apply(w, ResetMetrics), steps) && NoResets(steps)
    ensures var u := After(Apply(w, ResetMetrics), steps);
            && u.transfers == (Sum(IsFull, u.sessions) - Sum(IsFull, w.sessions))
                            + (Sum(IsPendingRecord, w.sessions) - Sum(IsPendingRecord, u.sessions))
            && (forall id :: u.bodyCounts[id] == Sum(CountedFor(id), u.sessions) - Sum(CountedFor(id), w.sessions))
            && |u.bodyCounts| - u.transfers == Between(u) - Between(w)
  {
    var v := Apply(w, ResetMetrics);
    var u := After(v, steps);
    StepStaysReachable(w, ResetMetrics);
    RunStaysReachable(v, steps);
    NothingForgotten(v, steps);
    RecordersInEveryState(w);
    RecordersInEveryState(u);
    forall id ensures u.bodyCounts[id] == Sum(CountedFor(id), u.sessions) - Sum(CountedFor(id), w.sessions) {
      assert u.bodyCounts[id] + u.forgottenCounts[id] == Sum(CountedFor(id), u.sessions);
      assert w.bodyCounts[id] + w.forgottenCounts[id] == Sum(CountedFor(id), w.sessions);
      assert u.forgottenCounts[id] == (w.forgottenCounts + w.bodyCounts)[id];
    }
  }
}
