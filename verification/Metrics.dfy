/** The server's counters. Recorders of other connections may step between any two steps of a recorder here,
    which for a number that is only ever raised means that it may have been raised meanwhile. */
module Metrics {
  import opened ByteStrings
  import opened MaxRegisters

  /** An atomic 64-bit number raised to a maximum by many recorders. */
  class AtomicMax {
    var value: int
    ghost var others: int

    constructor ()
      ensures value == 0 && others == 0
    {
      value, others := 0, 0;
    }

    /** Other recorders' steps: `others` keeps the largest number they stored. */
    method Interfere()
      requires others <= value
      modifies this
      ensures value >= old(value)
      ensures (value == old(value) && others == old(others)) || value == others
      ensures others >= old(others)
    {
      var more: int := *;
      if more > value {
        value := more;
        others := more;
      }
    }

    /** Setting the number back; what others stored before no longer matters. */
    method Store(next: int)
      modifies this
      ensures value == next && others == next
    {
      value, others := next, next;
    }

    method CompareAndSwap(previous: int, next: int) returns (swapped: bool)
      modifies this`value
      ensures swapped <==> old(value) == previous
      ensures value == if swapped then next else old(value)
    {
      swapped := value == previous;
      if swapped {
        value := next;
      }
    }

    /** The retry loop of recordPeak and of recordBody. It ends, since each retry finds the number risen, and
        then the number is the largest of the old one, the new one and the others'. */
    method Raise(next: int)
      requires others <= value
      modifies this
      ensures value == Max(Max(old(value), next), others)
      ensures others >= old(others)
    {
      while true
        invariant others >= old(others) && others <= value
        invariant value == Max(old(value), others)
        decreases next - value
      {
        Interfere();
        var previous := value;
        if next <= previous {
          return;
        }
        Interfere();
        var swapped := CompareAndSwap(previous, next);
        if swapped {
          return;
        }
      }
    }
  }

  const WORD := 0x1_0000_0000_0000_0000

  /** The first time after some more tries to set it. */
  function FirstSet(first: int, tries: seq<int>): int
    decreases |tries|
  {
    if tries == [] then first else FirstSet(if first == 0 then tries[0] else first, tries[1..])
  }

  lemma {:induction false} FirstSetAppend(first: int, a: seq<int>, b: seq<int>)
    ensures FirstSet(first, a + b) == FirstSet(FirstSet(first, a), b)
    decreases |a|
  {
    if a == [] {
      assert a + b == b;
    } else {
      assert (a + b)[1..] == a[1..] + b;
      FirstSetAppend(if first == 0 then a[0] else first, a[1..], b);
    }
  }

  function AddWord(a: nat, b: nat): nat {
    (a + b) % WORD
  }

  lemma AddWordTwice(a: nat, b: nat, c: nat)
    ensures AddWord(AddWord(a, b), c) == AddWord(a, b + c)
  {}

  /** What other recorders added. */
  datatype Added = Added(counts: multiset<Bytes>, bytes: nat, transfers: nat, tries: seq<int>)

  const NOTHING := Added(multiset{}, 0, 0, [])

  function Both(a: Added, b: Added): Added {
    Added(a.counts + b.counts, a.bytes + b.bytes, a.transfers + b.transfers, a.tries + b.tries)
  }

  /** The counters of BODY transfers. */
  datatype Counters = Counters(counts: multiset<Bytes>, bytes: nat, transfers: int, first: int)

  function With(c: Counters, a: Added): Counters {
    Counters(c.counts + a.counts, AddWord(c.bytes, a.bytes), c.transfers + a.transfers, FirstSet(c.first, a.tries))
  }

  lemma WithBoth(c: Counters, a: Added, b: Added)
    ensures With(With(c, a), b) == With(c, Both(a, b))
  {
    FirstSetAppend(c.first, a.tries, b.tries);
    AddWordTwice(c.bytes, a.bytes, b.bytes);
  }

  lemma BothAssociate(a: Added, b: Added, c: Added)
    ensures Both(Both(a, b), c) == Both(a, Both(b, c))
  {
    assert a.tries + b.tries + c.tries == a.tries + (b.tries + c.tries);
  }

  lemma WithNothing(c: Counters)
    requires c.bytes < WORD
    ensures With(c, NOTHING) == c
  {}

  /** Counts are ahead of transfers by this many recorders between the two; and the first time is not after the last, or
      is that of a recorder that will still raise it. */
  predicate InStep(c: Counters, between: int, tried: multiset<int>, last: int) {
    && c.bytes < WORD
    && |c.counts| == c.transfers + between
    && 0 <= last && (c.first <= last || c.first in tried)
  }

  lemma CountStep(c: Counters, between: int, tried: multiset<int>, last: int, id: Bytes)
    requires InStep(c, between, tried, last)
    ensures InStep(With(c, NOTHING.(counts := multiset{id})), between + 1, tried, last)
    ensures With(c, NOTHING.(counts := multiset{id})) == c.(counts := c.counts + multiset{id})
  {}

  lemma BytesStep(c: Counters, between: int, tried: multiset<int>, last: int, size: nat)
    requires InStep(c, between, tried, last)
    ensures InStep(With(c, NOTHING.(bytes := size)), between, tried, last)
    ensures With(c, NOTHING.(bytes := size)) == c.(bytes := AddWord(c.bytes, size))
  {}

  lemma TransferStep(c: Counters, between: int, tried: multiset<int>, last: int)
    requires InStep(c, between, tried, last)
    ensures InStep(With(c, NOTHING.(transfers := 1)), between - 1, tried, last)
    ensures With(c, NOTHING.(transfers := 1)) == c.(transfers := c.transfers + 1)
  {
    WithNothing(c);
  }

  lemma TryStep(c: Counters, between: int, tried: multiset<int>, last: int, time: int)
    requires InStep(c, between, tried, last)
    ensures InStep(With(c, NOTHING.(tries := [time])), between, tried + multiset{time}, last)
    ensures With(c, NOTHING.(tries := [time])) == c.(first := if c.first == 0 then time else c.first)
  {
    WithNothing(c);
    assert FirstSet(c.first, [time]) == FirstSet(if c.first == 0 then time else c.first, [time][1..]);
  }

  lemma RaiseStep(c: Counters, between: int, tried: multiset<int>, last: int, time: int, raised: int)
    requires InStep(c, between, tried + multiset{time}, last) && last <= raised && time <= raised
    ensures InStep(c, between, tried, raised)
  {}

  lemma AndMore(c: Counters, own: Added, a: Added, more: Added)
    ensures With(With(c, Both(own, a)), more) == With(c, Both(own, Both(a, more)))
  {
    WithBoth(c, Both(own, a), more);
    BothAssociate(own, a, more);
  }

  lemma SumAdded(id: Bytes, bytes: nat, b: Added, d: Added)
    ensures Both(Both(Both(Both(NOTHING.(counts := multiset{id}), b), NOTHING.(bytes := bytes)), d),
                 NOTHING.(transfers := 1))
         == Both(Added(multiset{id}, bytes, 1, []), Both(b, d))
  {
    assert [] + b.tries + [] + d.tries + [] == [] + (b.tries + d.tries);
    assert multiset{id} + b.counts + multiset{} + d.counts + multiset{} == multiset{id} + (b.counts + d.counts);
  }

  /** A recorder's own steps and those of others between them add up. */
  lemma OwnAndOthers(c: Counters, id: Bytes, bytes: nat, b: Added, d: Added)
    ensures var counted := With(With(c, NOTHING.(counts := multiset{id})), b);
            var added := With(With(counted, NOTHING.(bytes := bytes)), d);
            With(added, NOTHING.(transfers := 1)) == With(c, Both(Added(multiset{id}, bytes, 1, []), Both(b, d)))
  {
    var own := NOTHING.(counts := multiset{id});
    WithBoth(c, own, b);
    WithBoth(c, Both(own, b), NOTHING.(bytes := bytes));
    WithBoth(c, Both(Both(own, b), NOTHING.(bytes := bytes)), d);
    WithBoth(c, Both(Both(Both(own, b), NOTHING.(bytes := bytes)), d), NOTHING.(transfers := 1));
    SumAdded(id, bytes, b, d);
  }

  /** The recorders of other connections are part of the state only by where they are: `othersBetween` have counted
      their article and not their transfer, `othersCaught` had so at the last reset, and `othersTried` are the times
      of those that have tried to set the first time and have not raised the last one yet. */
  class MetricState {
    var bodyCounts: multiset<Bytes>
    var bodyBytes: nat
    var bodyTransfers: int
    var bodyFirst: int
    var othersBetween: nat
    var othersCaught: nat
    var othersTried: multiset<int>
    const bodyLast: AtomicMax
    const peak: AtomicMax
    var attempted: int
    var accepted: int
    var rejected: int

    ghost function View(): Counters
      reads this
    {
      Counters(bodyCounts, bodyBytes, bodyTransfers, bodyFirst)
    }

    /** The other recorders between their two steps, without those the last reset caught there. */
    ghost function Ahead(): int
      reads `othersBetween, `othersCaught
    {
      othersBetween - othersCaught
    }

    /** The counters are in step, with the own recorder's steps counted in. */
    ghost predicate Balanced(mine: nat, own: multiset<int>)
      reads this, bodyLast, peak
    {
      && bodyLast != peak
      && bodyLast.others <= bodyLast.value && peak.others <= peak.value
      && InStep(View(), Ahead() + mine, othersTried + own, bodyLast.value)
    }

    ghost predicate Valid()
      reads this, bodyLast, peak
    {
      Balanced(0, multiset{})
    }

    /** When no other recorder is on its way, the transfers are the counts and those that the last reset caught
        between the two, and the first time is not after the last. */
    lemma QuietCounters()
      requires Valid() && othersBetween == 0 && othersTried == multiset{}
      ensures bodyTransfers - |bodyCounts| == othersCaught && bodyFirst <= bodyLast.value
    {}

    constructor ()
      ensures Valid() && fresh(bodyLast) && fresh(peak)
    {
      bodyCounts, bodyBytes, bodyTransfers, bodyFirst := multiset{}, 0, 0, 0;
      othersBetween, othersCaught, othersTried := 0, 0, multiset{};
      attempted, accepted, rejected := 0, 0, 0;
      bodyLast := new AtomicMax();
      peak := new AtomicMax();
    }

    method RecordPeak(active: int)
      requires Valid()
      modifies peak
      ensures Valid()
      ensures peak.value == Max(Max(old(peak.value), active), peak.others)
    {
      peak.Raise(active);
    }

    method OthersTry(ghost mine: nat, ghost own: multiset<int>, time: int) returns (ghost a: Added)
      requires Balanced(mine, own)
      modifies `bodyFirst, `othersTried
      ensures Balanced(mine, own) && View() == With(old(View()), a)
    {
      TryStep(View(), Ahead() + mine, othersTried + own, bodyLast.value, time);
      if bodyFirst == 0 {
        bodyFirst := time;
      }
      othersTried := othersTried + multiset{time};
      a := NOTHING.(tries := [time]);
      assert othersTried + own == old(othersTried) + own + multiset{time};
    }

    method OthersRaise(ghost mine: nat, ghost own: multiset<int>, time: int) returns (ghost a: Added)
      requires Balanced(mine, own)
      modifies `othersTried, bodyLast
      ensures Balanced(mine, own) && View() == With(old(View()), a)
      ensures bodyLast.value == Max(old(bodyLast.value), bodyLast.others) && bodyLast.others >= old(bodyLast.others)
    {
      a := NOTHING;
      WithNothing(View());
      if time in othersTried {
        ghost var rest := othersTried - multiset{time} + own;
        assert rest + multiset{time} == othersTried + own;
        ghost var last := bodyLast.value;
        if time > bodyLast.value {
          bodyLast.value := time;
          bodyLast.others := time;
        }
        RaiseStep(View(), Ahead() + mine, rest, last, time, bodyLast.value);
        othersTried := othersTried - multiset{time};
      }
    }

    /** One step of another recorder. */
    method OtherStep(ghost mine: nat, ghost own: multiset<int>) returns (ghost a: Added)
      requires Balanced(mine, own)
      modifies `bodyCounts, `bodyBytes, `bodyTransfers, `bodyFirst, `othersBetween, `othersTried, bodyLast
      ensures Balanced(mine, own) && View() == With(old(View()), a)
      ensures bodyLast.value == Max(old(bodyLast.value), bodyLast.others) && bodyLast.others >= old(bodyLast.others)
    {
      var kind: int, id: Bytes, size: int, time: int := *, *, *, *;
      ghost var c, between, tried := View(), Ahead() + mine, othersTried + own;
      if kind == 0 {
        CountStep(c, between, tried, bodyLast.value, id);
        bodyCounts := bodyCounts + multiset{id};
        othersBetween := othersBetween + 1;
        a := NOTHING.(counts := multiset{id});
      } else if kind == 1 && size >= 0 {
        BytesStep(c, between, tried, bodyLast.value, size);
        bodyBytes := AddWord(bodyBytes, size);
        a := NOTHING.(bytes := size);
      } else if kind == 2 && othersBetween > 0 {
        TransferStep(c, between, tried, bodyLast.value);
        bodyTransfers := bodyTransfers + 1;
        othersBetween := othersBetween - 1;
        a := NOTHING.(transfers := 1);
      } else if kind == 3 {
        a := OthersTry(mine, own, time);
      } else {
        a := OthersRaise(mine, own, time);
      }
    }

    /** Any number of them. */
    method Interfere(ghost mine: nat, ghost own: multiset<int>) returns (ghost a: Added)
      requires Balanced(mine, own)
      modifies `bodyCounts, `bodyBytes, `bodyTransfers, `bodyFirst, `othersBetween, `othersTried, bodyLast
      ensures Balanced(mine, own) && View() == With(old(View()), a)
      ensures bodyLast.value == Max(old(bodyLast.value), bodyLast.others) && bodyLast.others >= old(bodyLast.others)
    {
      var steps: int := *;
      a := NOTHING;
      WithNothing(View());
      while steps > 0
        invariant Balanced(mine, own) && View() == With(old(View()), a)
        invariant bodyLast.value == Max(old(bodyLast.value), bodyLast.others) && bodyLast.others >= old(bodyLast.others)
      {
        ghost var b := OtherStep(mine, own);
        WithBoth(old(View()), a, b);
        a := Both(a, b);
        steps := steps - 1;
      }
    }

    /** The recorder's own steps up to the transfer, with others' between any two. */
    method CountTransfer(id: Bytes, bytes: nat) returns (ghost a: Added)
      requires Valid()
      modifies `bodyCounts, `bodyBytes, `bodyTransfers, `bodyFirst, `othersBetween, `othersTried, bodyLast
      ensures Valid() && View() == With(old(View()), Both(Added(multiset{id}, bytes, 1, []), a))
      ensures bodyLast.value == Max(old(bodyLast.value), bodyLast.others) && bodyLast.others >= old(bodyLast.others)
    {
      ghost var before := View();
      CountStep(View(), Ahead(), othersTried + multiset{}, bodyLast.value, id);
      bodyCounts := bodyCounts + multiset{id};
      ghost var b := Interfere(1, multiset{});
      ghost var c := View();
      BytesStep(c, Ahead() + 1, othersTried + multiset{}, bodyLast.value, bytes);
      bodyBytes := AddWord(bodyBytes, bytes);
      ghost var d := Interfere(1, multiset{});
      TransferStep(View(), Ahead() + 1, othersTried + multiset{}, bodyLast.value);
      bodyTransfers := bodyTransfers + 1;
      a := Both(b, d);
      OwnAndOthers(before, id, bytes, b, d);
    }

    /** The recorder's last steps, with the time it read from the clock. */
    method StampTransfer(now: int) returns (ghost b: Added)
      requires Valid()
      modifies `bodyCounts, `bodyBytes, `bodyTransfers, `bodyFirst, `othersBetween, `othersTried, bodyLast
      ensures Valid() && View() == With(old(View()), Both(NOTHING.(tries := [now]), b))
      ensures bodyLast.value == Max(Max(old(bodyLast.value), now), bodyLast.others)
      ensures bodyLast.others >= old(bodyLast.others)
    {
      ghost var before := View();
      TryStep(before, Ahead(), othersTried + multiset{}, bodyLast.value, now);
      if bodyFirst == 0 {
        bodyFirst := now;
      }
      assert othersTried + multiset{now} == othersTried + multiset{} + multiset{now};
      b := Interfere(0, multiset{now});
      WithBoth(before, NOTHING.(tries := [now]), b);
      ghost var last := bodyLast.value;
      bodyLast.Raise(now);
      RaiseStep(View(), Ahead(), othersTried, last, now, bodyLast.value);
      assert othersTried + multiset{} == othersTried;
    }

    /** One finished transfer. Whatever other recorders do between its steps, their additions (a before the clock is
        read and the first time tried, b after) and its own make up the new counters; the first time is set unless
        it is already, and the last is the largest of all. */
    method RecordBody(id: Bytes, bytes: nat, now: int) returns (ghost a: Added, ghost b: Added)
      requires Valid()
      modifies `bodyCounts, `bodyBytes, `bodyTransfers, `bodyFirst, `othersBetween, `othersTried, bodyLast
      ensures Valid()
      ensures View() == With(With(old(View()), Both(Added(multiset{id}, bytes, 1, []), a)),
                             Both(NOTHING.(tries := [now]), b))
      ensures bodyLast.value == Max(Max(old(bodyLast.value), now), bodyLast.others)
    {
      a := CountTransfer(id, bytes);
      ghost var more := Interfere(0, multiset{});
      AndMore(old(View()), Added(multiset{id}, bytes, 1, []), a, more);
      a := Both(a, more);
      b := StampTransfer(now);
    }

    /** The transfers' part of a reset. */
    method ResetTransfers()
      requires Valid()
      modifies `bodyCounts, `bodyBytes, `bodyTransfers, `bodyFirst, `othersCaught, bodyLast
      ensures Valid() && View() == Counters(multiset{}, 0, 0, 0) && bodyLast.value == 0
      ensures othersCaught == othersBetween
    {
      bodyCounts := multiset{};
      bodyBytes, bodyTransfers, bodyFirst := 0, 0, 0;
      othersCaught := othersBetween;
      bodyLast.Store(0);
    }

    method Reset(active: int)
      requires Valid()
      modifies this, bodyLast, peak
      ensures Valid()
      ensures View() == Counters(multiset{}, 0, 0, 0)
      ensures bodyLast.value == 0 && peak.value == active
      ensures attempted == 0 && accepted == 0 && rejected == 0
    {
      ResetTransfers();
      attempted, accepted, rejected := 0, 0, 0;
      peak.Store(active);
    }
  }
}
