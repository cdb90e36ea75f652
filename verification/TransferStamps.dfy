/** The times of the first and the last finished BODY transfer, recorded by any number of recorders whose clocks
    may be read in one order and land in another, and cleared by resets of the metrics. */
module TransferStamps {
  import opened MaxRegisters

  /** `reading` holds the times read from the clock by recorders that have not tried to set `first` yet. A recorder
      joins `last` when it has tried, so these stand in the order of their tries; those from `since` on tried after
      the last reset, and `carried` are the earlier ones that the reset caught before they were done. */
  datatype Stamps = Stamps(first: int, last: Register, reading: seq<int>, since: nat, carried: set<nat>)

  const UNSET := Stamps(0, Register(0, []), [], 0, {})

  datatype Move = ReadClock(now: int) | SetFirst(k: nat) | RaiseLast(r: nat) | ResetMetrics

  predicate Enabled(w: Stamps, m: Move) {
    match m
    case ReadClock(_) => true
    case SetFirst(k) => k < |w.reading|
    case RaiseLast(r) => CanStep(w.last, r)
    case ResetMetrics => true
  }

  function PendingOf(m: Register): set<nat> {
    set r: nat | r < |m.recorders| && Pending(m.recorders[r])
  }

  function Apply(w: Stamps, m: Move): Stamps
    requires Enabled(w, m)
  {
    match m
    case ReadClock(now) => w.(reading := w.reading + [now])
    case SetFirst(k) =>
      w.(first := if w.first == 0 then w.reading[k] else w.first,
         last := Begin(w.last, w.reading[k]),
         reading := w.reading[..k] + w.reading[k + 1..])
    case RaiseLast(r) => w.(last := Step(w.last, r))
    case ResetMetrics =>
      w.(first := 0, last := w.last.(value := 0), since := |w.last.recorders|, carried := PendingOf(w.last))
  }

  // ----- what every move keeps

  /** The first time that is not zero, or zero. */
  function FirstNonzero(rs: seq<Recorder>): int {
    if rs == [] then 0 else if rs[0].v != 0 then rs[0].v else FirstNonzero(rs[1..])
  }

  /** The recorder can have stored its time since the last reset. */
  predicate Counts(w: Stamps, r: int) {
    0 <= r < |w.last.recorders| && (w.since <= r || r in w.carried)
  }

  ghost predicate LastInv(w: Stamps) {
    && Sound(w.last) && Timely(w.last, w.since)
    && 0 <= w.last.value
    && (forall r :: 0 <= r < |w.last.recorders| && Pending(w.last.recorders[r]) ==> Counts(w, r))
    && (forall r :: Counts(w, r) && w.last.recorders[r].Done? ==> w.last.recorders[r].v <= w.last.value)
    && (w.last.value == 0 || exists r :: Counts(w, r) && w.last.recorders[r].v == w.last.value)
  }

  predicate FirstInv(w: Stamps) {
    w.since <= |w.last.recorders| && w.first == FirstNonzero(w.last.recorders[w.since..])
  }

  ghost predicate Inv(w: Stamps) {
    LastInv(w) && FirstInv(w)
  }

  lemma {:induction false} FirstNonzeroPush(rs: seq<Recorder>, r: Recorder)
    ensures FirstNonzero(rs + [r]) == if FirstNonzero(rs) == 0 then r.v else FirstNonzero(rs)
  {
    if rs == [] {
      assert rs + [r] == [r];
    } else {
      assert (rs + [r])[1..] == rs[1..] + [r];
      FirstNonzeroPush(rs[1..], r);
    }
  }

  lemma {:induction false} FirstNonzeroUpdate(rs: seq<Recorder>, i: nat, r: Recorder)
    requires i < |rs| && r.v == rs[i].v
    ensures FirstNonzero(rs[i := r]) == FirstNonzero(rs)
  {
    if i == 0 {
      assert rs[0 := r][1..] == rs[1..];
    } else {
      assert rs[i := r][1..] == rs[1..][i - 1 := r];
      FirstNonzeroUpdate(rs[1..], i - 1, r);
    }
  }

  lemma StepKeepsTimes(m: Register, r: nat)
    requires CanStep(m, r)
    ensures Step(m, r).recorders == m.recorders[r := Step(m, r).recorders[r]]
    ensures Step(m, r).recorders[r].v == m.recorders[r].v
  {}

  lemma MoveKeepsFirst(w: Stamps, m: Move)
    requires FirstInv(w) && Enabled(w, m)
    ensures FirstInv(Apply(w, m))
  {
    var rs := w.last.recorders;
    match m
    case ReadClock(_) =>
    case SetFirst(k) =>
      assert (rs + [Wants(w.reading[k])])[w.since..] == rs[w.since..] + [Wants(w.reading[k])];
      FirstNonzeroPush(rs[w.since..], Wants(w.reading[k]));
    case RaiseLast(r) =>
      StepKeepsTimes(w.last, r);
      var x := Step(w.last, r).recorders[r];
      if w.since <= r {
        assert rs[r := x][w.since..] == rs[w.since..][r - w.since := x];
        FirstNonzeroUpdate(rs[w.since..], r - w.since, x);
      } else {
        assert rs[r := x][w.since..] == rs[w.since..];
      }
    case ResetMetrics =>
  }

  lemma BeginKeepsLast(w: Stamps, k: nat)
    requires LastInv(w) && w.since <= |w.last.recorders| && k < |w.reading|
    ensures LastInv(Apply(w, SetFirst(k)))
  {
    var v := Apply(w, SetFirst(k));
    forall r | Counts(w, r) ensures Counts(v, r) && v.last.recorders[r] == w.last.recorders[r] {}
    forall r | Counts(v, r) && v.last.recorders[r].Done? ensures Counts(w, r) {}
    if w.last.value != 0 {
      var r :| Counts(w, r) && w.last.recorders[r].v == w.last.value;
      assert Counts(v, r) && v.last.recorders[r].v == v.last.value;
    }
  }

  lemma RaiseKeepsLast(w: Stamps, r: nat)
    requires LastInv(w) && CanStep(w.last, r)
    ensures LastInv(Apply(w, RaiseLast(r)))
  {
    var v := Apply(w, RaiseLast(r));
    StepRaises(w.last, r);
    StepKeepsTimely(w.last, r, w.since);
    StepKeepsTimes(w.last, r);
    assert Counts(w, r);
    if v.last.value != w.last.value {
      assert Counts(v, r) && v.last.recorders[r].v == v.last.value;
    } else if w.last.value != 0 {
      var i :| Counts(w, i) && w.last.recorders[i].v == w.last.value;
      assert Counts(v, i) && v.last.recorders[i].v == v.last.value;
    }
  }

  lemma MoveKeepsInv(w: Stamps, m: Move)
    requires Inv(w) && Enabled(w, m)
    ensures Inv(Apply(w, m))
  {
    MoveKeepsFirst(w, m);
    match m
    case ReadClock(_) =>
    case SetFirst(k) => BeginKeepsLast(w, k);
    case RaiseLast(r) => RaiseKeepsLast(w, r);
    case ResetMetrics =>
  }

  // ----- runs

  predicate IsRun(w: Stamps, moves: seq<Move>)
    decreases |moves|
  {
    moves == [] || (Enabled(w, moves[0]) && IsRun(Apply(w, moves[0]), moves[1..]))
  }

  function Run(w: Stamps, moves: seq<Move>): Stamps
    requires IsRun(w, moves)
    decreases |moves|
  {
    if moves == [] then w else Run(Apply(w, moves[0]), moves[1..])
  }

  lemma {:induction false} RunKeepsInv(w: Stamps, moves: seq<Move>)
    requires Inv(w) && IsRun(w, moves)
    ensures Inv(Run(w, moves))
    decreases |moves|
  {
    if moves != [] {
      MoveKeepsInv(w, moves[0]);
      RunKeepsInv(Apply(w, moves[0]), moves[1..]);
    }
  }

  lemma {:induction false} FirstNonzeroIsOne(rs: seq<Recorder>)
    ensures FirstNonzero(rs) == 0 || exists i :: 0 <= i < |rs| && rs[i].v == FirstNonzero(rs)
  {
    if rs != [] {
      FirstNonzeroIsOne(rs[1..]);
      if FirstNonzero(rs[1..]) != 0 {
        var i :| 0 <= i < |rs[1..]| && rs[1..][i].v == FirstNonzero(rs[1..]);
        assert rs[i + 1].v == FirstNonzero(rs[1..]);
      }
    }
  }

  /** In every run, with resets anywhere in it: the first time is the one set first since the last reset. Once
      every recorder is done it is not after the last, no time recorded since the reset is, and the last is one
      of those times or of a recorder the reset caught on its way, whatever the clocks said. */
  lemma FirstIsNotAfterLast(moves: seq<Move>)
    requires IsRun(UNSET, moves)
    ensures var w := Run(UNSET, moves);
            && w.since <= |w.last.recorders| && w.first == FirstNonzero(w.last.recorders[w.since..])
            && (w.last.value == 0 || exists r :: Counts(w, r) && w.last.recorders[r].v == w.last.value)
            && (Quiet(w.last) ==>
                  && w.first <= w.last.value
                  && forall r :: w.since <= r < |w.last.recorders| ==> w.last.recorders[r].v <= w.last.value)
  {
    RunKeepsInv(UNSET, moves);
    var w := Run(UNSET, moves);
    if Quiet(w.last) {
      FirstNonzeroIsOne(w.last.recorders[w.since..]);
      assert forall r :: w.since <= r < |w.last.recorders| ==> w.last.recorders[r].v <= w.last.value;
    }
  }

  /** The latest of some times, or zero. */
  function LatestOf(rs: seq<Recorder>): (t: int)
    ensures t >= 0 && forall i :: 0 <= i < |rs| ==> rs[i].v <= t
  {
    if rs == [] then 0
    else
      var t := LatestOf(rs[1..]);
      assert forall i :: 0 < i < |rs| ==> rs[i] == rs[1..][i - 1];
      Max(rs[0].v, t)
  }

  lemma {:induction false} LatestIs(rs: seq<Recorder>, time: int)
    requires 0 <= time && forall i :: 0 <= i < |rs| ==> rs[i].v <= time
    ensures LatestOf(rs) <= time
  {
    if rs != [] {
      LatestIs(rs[1..], time);
    }
  }

  /** No recorder that the last reset caught on its way brought a later time. */
  predicate CarriedAtMost(w: Stamps, time: int) {
    forall r :: 0 <= r < |w.last.recorders| && r in w.carried ==> w.last.recorders[r].v <= time
  }

  lemma LatestSince(w: Stamps)
    requires w.since <= |w.last.recorders| && 0 <= w.last.value
    requires forall r :: Counts(w, r) ==> w.last.recorders[r].v <= w.last.value
    requires w.last.value == 0 || exists r :: Counts(w, r) && w.last.recorders[r].v == w.last.value
    ensures w.last.value == LatestOf(w.last.recorders[w.since..])
            <==> CarriedAtMost(w, LatestOf(w.last.recorders[w.since..]))
  {
    var rs := w.last.recorders[w.since..];
    forall i | 0 <= i < |rs| ensures rs[i].v <= w.last.value {
      assert Counts(w, w.since + i);
    }
    LatestIs(rs, w.last.value);
    forall r | 0 <= r < |w.last.recorders| && r in w.carried ensures w.last.recorders[r].v <= w.last.value {
      assert Counts(w, r);
    }
    if CarriedAtMost(w, LatestOf(rs)) && w.last.value != 0 {
      var r :| Counts(w, r) && w.last.recorders[r].v == w.last.value;
      if w.since <= r {
        assert rs[r - w.since].v == w.last.value;
      }
    }
  }

  /** Once every recorder is done, the last time is the latest of those recorded since the last reset and those of
      the recorders the reset caught on their way. So it is the latest recorded since the reset if and only if no
      caught recorder brought a later one. */
  lemma LastIsTheLatest(moves: seq<Move>)
    requires IsRun(UNSET, moves) && Quiet(Run(UNSET, moves).last)
    ensures var w := Run(UNSET, moves);
            && w.since <= |w.last.recorders|
            && (forall r :: Counts(w, r) ==> w.last.recorders[r].v <= w.last.value)
            && (w.last.value == 0 || exists r :: Counts(w, r) && w.last.recorders[r].v == w.last.value)
            && (w.last.value == LatestOf(w.last.recorders[w.since..])
                <==> CarriedAtMost(w, LatestOf(w.last.recorders[w.since..])))
  {
    var w := Run(UNSET, moves);
    RunKeepsInv(UNSET, moves);
    forall r | Counts(w, r) ensures w.last.recorders[r].v <= w.last.value {
      assert !Pending(w.last.recorders[r]);
    }
    LatestSince(w);
  }

  lemma {:induction false} NothingCarried(w: Stamps, moves: seq<Move>)
    requires IsRun(w, moves) && forall i :: 0 <= i < |moves| ==> !moves[i].ResetMetrics?
    ensures Run(w, moves).carried == w.carried && Run(w, moves).since == w.since
    decreases |moves|
  {
    if moves != [] {
      NothingCarried(Apply(w, moves[0]), moves[1..]);
    }
  }

  /** Without a reset, the last time is the latest of all. */
  lemma LastIsTheLatestOfAll(moves: seq<Move>)
    requires IsRun(UNSET, moves) && forall i :: 0 <= i < |moves| ==> !moves[i].ResetMetrics?
    requires Quiet(Run(UNSET, moves).last)
    ensures Run(UNSET, moves).last.value == LatestOf(Run(UNSET, moves).last.recorders)
  {
    NothingCarried(UNSET, moves);
    LastIsTheLatest(moves);
    var w := Run(UNSET, moves);
    assert w.last.recorders[0..] == w.last.recorders;
  }

  // ----- the first and the earliest

  /** No recorded time is earlier; zero stands for none. */
  predicate IsEarliest(time: int, rs: seq<Recorder>) {
    forall j :: 0 <= j < |rs| && rs[j].v != 0 ==> time <= rs[j].v
  }

  /** The recorder that got to set the first time. */
  function Setter(rs: seq<Recorder>): (i: nat)
    ensures i <= |rs|
    ensures i < |rs| ==> rs[i].v != 0
    ensures forall j :: 0 <= j < i ==> rs[j].v == 0
  {
    if rs == [] || rs[0].v != 0 then 0 else 1 + Setter(rs[1..])
  }

  /** No recorder that tried later had read an earlier time. */
  predicate InOrder(rs: seq<Recorder>) {
    forall j :: Setter(rs) < j < |rs| && rs[j].v != 0 ==> rs[Setter(rs)].v <= rs[j].v
  }

  lemma {:induction false} FirstNonzeroIsTheSetters(rs: seq<Recorder>)
    ensures FirstNonzero(rs) == if Setter(rs) < |rs| then rs[Setter(rs)].v else 0
  {
    if rs != [] && rs[0].v == 0 {
      FirstNonzeroIsTheSetters(rs[1..]);
    }
  }

  /** The first time is the earliest since the last reset if and only if no recorder with an earlier reading came
      to try after the one that set it. */
  lemma FirstIsEarliestExactlyInOrder(moves: seq<Move>)
    requires IsRun(UNSET, moves)
    ensures var w := Run(UNSET, moves);
            && w.since <= |w.last.recorders|
            && (IsEarliest(w.first, w.last.recorders[w.since..]) <==> InOrder(w.last.recorders[w.since..]))
  {
    RunKeepsInv(UNSET, moves);
    var w := Run(UNSET, moves);
    FirstNonzeroIsTheSetters(w.last.recorders[w.since..]);
  }

  /** The times with which recorders try to set the first, in the order of their tries, as the moves have it. */
  function Tries(reading: seq<int>, moves: seq<Move>): seq<int>
    decreases |moves|
  {
    if moves == [] then []
    else
      match moves[0]
      case ReadClock(now) => Tries(reading + [now], moves[1..])
      case SetFirst(k) =>
        if k < |reading| then [reading[k]] + Tries(reading[..k] + reading[k + 1..], moves[1..]) else []
      case _ => Tries(reading, moves[1..])
  }

  function TimesOf(rs: seq<Recorder>): seq<int> {
    seq(|rs|, i requires 0 <= i < |rs| => rs[i].v)
  }

  lemma MoveAddsTry(w: Stamps, m: Move, more: seq<int>)
    requires Enabled(w, m) && !m.ResetMetrics?
    ensures TimesOf(Apply(w, m).last.recorders) + more
         == TimesOf(w.last.recorders) + (if m.SetFirst? then [w.reading[m.k]] + more else more)
    ensures Apply(w, m).since == w.since
  {
    if m.RaiseLast? {
      StepKeepsTimes(w.last, m.r);
      assert TimesOf(Apply(w, m).last.recorders) == TimesOf(w.last.recorders);
    }
  }

  /** Without a reset, the recorders that join are those that try, in that order. */
  lemma {:induction false} RunAddsTries(w: Stamps, moves: seq<Move>)
    requires IsRun(w, moves) && forall i :: 0 <= i < |moves| ==> !moves[i].ResetMetrics?
    ensures TimesOf(Run(w, moves).last.recorders) == TimesOf(w.last.recorders) + Tries(w.reading, moves)
    ensures Run(w, moves).since == w.since
    decreases |moves|
  {
    if moves == [] {
      assert TimesOf(w.last.recorders) + [] == TimesOf(w.last.recorders);
    } else {
      var v := Apply(w, moves[0]);
      RunAddsTries(v, moves[1..]);
      MoveAddsTry(w, moves[0], Tries(v.reading, moves[1..]));
    }
  }

  lemma FirstNonzeroOfRun(u: Stamps, k: nat, w: Stamps, tries: seq<int>)
    requires FirstInv(u) && u.first == 0 && k < |u.reading| && u.reading[k] != 0
    requires FirstInv(w) && w.since == u.since
    requires TimesOf(w.last.recorders) == TimesOf(Begin(u.last, u.reading[k]).recorders) + tries
    ensures w.first == u.reading[k]
    ensures IsEarliest(u.reading[k], w.last.recorders[w.since..])
            <==> forall t :: t in tries && t != 0 ==> u.reading[k] <= t
  {
    var rs, n := w.last.recorders, |u.last.recorders|;
    var times := TimesOf(rs);
    forall i | 0 <= i < |rs|
      ensures rs[i].v == if i < n then u.last.recorders[i].v else if i == n then u.reading[k] else tries[i - n - 1]
    {
      assert rs[i].v == times[i];
    }
    FirstNonzeroIsTheSetters(u.last.recorders[u.since..]);
    FirstNonzeroIsTheSetters(rs[w.since..]);
    var late := rs[w.since..];
    assert late[n - w.since].v == u.reading[k];
    forall j | 0 <= j < n - w.since ensures late[j].v == 0 {
      assert late[j].v == rs[w.since + j].v == u.last.recorders[u.since..][j].v;
    }
    assert Setter(late) == n - w.since;
    if forall t :: t in tries && t != 0 ==> u.reading[k] <= t {
      forall j | 0 <= j < |rs[w.since..]| && rs[w.since..][j].v != 0 ensures u.reading[k] <= rs[w.since..][j].v {
        assert w.since + j > n ==> tries[w.since + j - n - 1] in tries;
      }
    }
    if IsEarliest(u.reading[k], rs[w.since..]) {
      forall t | t in tries && t != 0 ensures u.reading[k] <= t {
        var i :| 0 <= i < |tries| && tries[i] == t;
        assert rs[w.since..][n + 1 + i - w.since].v == t;
      }
    }
  }

  /** The try that sets the first time sets the earliest if and only if every time tried after it, whether it was
      read from the clock before or after, is no earlier. */
  lemma FirstIsEarliestUnlessOvertaken(before: seq<Move>, k: nat, after: seq<Move>)
    requires IsRun(UNSET, before) && Run(UNSET, before).first == 0
    requires k < |Run(UNSET, before).reading| && Run(UNSET, before).reading[k] != 0
    requires IsRun(Apply(Run(UNSET, before), SetFirst(k)), after)
    requires forall i :: 0 <= i < |after| ==> !after[i].ResetMetrics?
    ensures var tried := Apply(Run(UNSET, before), SetFirst(k));
            var w := Run(tried, after);
            var time := Run(UNSET, before).reading[k];
            && w.since <= |w.last.recorders| && w.first == time
            && (IsEarliest(time, w.last.recorders[w.since..])
                <==> forall t :: t in Tries(tried.reading, after) && t != 0 ==> time <= t)
  {
    var u := Run(UNSET, before);
    RunKeepsInv(UNSET, before);
    var tried := Apply(u, SetFirst(k));
    MoveKeepsInv(u, SetFirst(k));
    RunKeepsInv(tried, after);
    RunAddsTries(tried, after);
    var w := Run(tried, after);
    FirstNonzeroOfRun(u, k, w, Tries(tried.reading, after));
  }

  lemma RunFirst(w: Stamps, m: Move, more: seq<Move>)
    requires Enabled(w, m) && IsRun(Apply(w, m), more)
    ensures IsRun(w, [m] + more) && Run(w, [m] + more) == Run(Apply(w, m), more)
  {
    assert ([m] + more)[1..] == more;
  }

  /** Any two clock readings can be recorded the other way round. */
  lemma FirstNeedNotBeEarliest(early: int, late: int) returns (moves: seq<Move>)
    requires early < late && early != 0 && late != 0
    ensures IsRun(UNSET, moves)
    ensures var w := Run(UNSET, moves); |w.last.recorders| == 2 && w.first == late && w.last.recorders[1].v == early
  {
    var empty := Register(0, []);
    var read := Stamps(0, empty, [early, late], 0, {});
    var one := Stamps(late, Begin(empty, late), [early], 0, {});
    var both := Stamps(late, Begin(Begin(empty, late), early), [], 0, {});
    assert Apply(Apply(UNSET, ReadClock(early)), ReadClock(late)) == read;
    assert Apply(read, SetFirst(1)) == one;
    assert Apply(one, SetFirst(0)) == both;
    RunFirst(one, SetFirst(0), []);
    RunFirst(read, SetFirst(1), [SetFirst(0)] + []);
    var reading := Apply(UNSET, ReadClock(early));
    moves := [SetFirst(1)] + ([SetFirst(0)] + []);
    RunFirst(reading, ReadClock(late), moves);
    RunFirst(UNSET, ReadClock(early), [ReadClock(late)] + moves);
    moves := [ReadClock(early)] + ([ReadClock(late)] + moves);
  }
}
