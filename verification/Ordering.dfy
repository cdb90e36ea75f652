/** The order sort.Strings puts message IDs in: byte by byte, a prefix first. */
module Ordering {
  import opened ByteStrings

  predicate Less(a: Bytes, b: Bytes) {
    b != [] && (a == [] || a[0] < b[0] || (a[0] == b[0] && Less(a[1..], b[1..])))
  }

  /** Exactly one of two IDs is less than the other, unless they are the same. */
  lemma {:induction false} LessTotal(a: Bytes, b: Bytes)
    ensures a == b ==> !Less(a, b)
    ensures a != b ==> Less(a, b) != Less(b, a)
  {
    if a != [] && b != [] && a[0] == b[0] {
      LessTotal(a[1..], b[1..]);
      assert a == [a[0]] + a[1..] && b == [b[0]] + b[1..];
    }
  }

  lemma {:induction false} LessTransitive(a: Bytes, b: Bytes, c: Bytes)
    requires Less(a, b) && Less(b, c)
    ensures Less(a, c)
  {
    if a != [] && a[0] == b[0] == c[0] {
      LessTransitive(a[1..], b[1..], c[1..]);
    }
  }

  predicate Increasing(ids: seq<Bytes>) {
    forall i, j :: 0 <= i < j < |ids| ==> Less(ids[i], ids[j])
  }

  function Elements(ids: seq<Bytes>): set<Bytes> {
    set id | id in ids
  }

  lemma ElementsCons(id: Bytes, ids: seq<Bytes>)
    ensures Elements([id] + ids) == {id} + Elements(ids)
  {}

  /** Inserts an ID that is not there yet at its place. */
  function Insert(id: Bytes, ids: seq<Bytes>): (r: seq<Bytes>)
    ensures Elements(r) == Elements(ids) + {id}
    ensures |r| == |ids| + 1
  {
    if ids == [] || Less(id, ids[0]) then
      [id] + ids
    else
      ElementsCons(ids[0], ids[1..]);
      ElementsCons(ids[0], Insert(id, ids[1..]));
      assert [ids[0]] + ids[1..] == ids;
      [ids[0]] + Insert(id, ids[1..])
  }

  lemma {:induction false} InsertIncreasing(id: Bytes, ids: seq<Bytes>)
    requires Increasing(ids) && id !in ids
    ensures Increasing(Insert(id, ids))
  {
    var r := Insert(id, ids);
    if ids != [] {
      LessTotal(id, ids[0]);
      if Less(id, ids[0]) {
        forall j | 0 < j < |r| ensures Less(id, r[j]) {
          if j > 1 {
            LessTransitive(id, ids[0], ids[j - 1]);
          }
        }
      } else {
        InsertIncreasing(id, ids[1..]);
        forall j | 0 < j < |r| ensures Less(ids[0], r[j]) {
          assert r[j] in Insert(id, ids[1..]);
          assert r[j] in Elements(ids[1..]) + {id};
        }
      }
    }
  }

  /** sort.Strings, on IDs that are all different. */
  function Sort(ids: seq<Bytes>): (r: seq<Bytes>)
    ensures |r| == |ids|
    ensures Elements(r) == Elements(ids)
  {
    if ids == [] then []
    else
      assert Elements(ids) == {ids[0]} + Elements(ids[1..]);
      Insert(ids[0], Sort(ids[1..]))
  }

  lemma {:induction false} SortIncreasing(ids: seq<Bytes>)
    requires forall i, j :: 0 <= i < j < |ids| ==> ids[i] != ids[j]
    ensures Increasing(Sort(ids))
  {
    if ids != [] {
      SortIncreasing(ids[1..]);
      assert ids[0] !in Elements(ids[1..]);
      InsertIncreasing(ids[0], Sort(ids[1..]));
    }
  }

  lemma TailElements(ids: seq<Bytes>)
    requires ids != [] && Increasing(ids)
    ensures Elements(ids[1..]) == Elements(ids) - {ids[0]}
  {
    forall i | 0 < i < |ids| ensures ids[i] != ids[0] {
      LessTotal(ids[0], ids[i]);
    }
    forall id | id in Elements(ids) && id != ids[0] ensures id in Elements(ids[1..]) {
      var i :| 0 <= i < |ids| && ids[i] == id;
      assert ids[1..][i - 1] == id;
    }
  }

  /** An increasing list is determined by its elements, so the order a map yields them in is immaterial. */
  lemma {:induction false} IncreasingUnique(a: seq<Bytes>, b: seq<Bytes>)
    requires Increasing(a) && Increasing(b) && Elements(a) == Elements(b)
    ensures a == b
  {
    assert a != [] ==> a[0] in Elements(a);
    assert b != [] ==> b[0] in Elements(b);
    if a != [] && b != [] {
      LessTotal(a[0], b[0]);
      assert a[0] == b[0];
      TailElements(a);
      TailElements(b);
      IncreasingUnique(a[1..], b[1..]);
    }
  }

  /** An increasing list counts each of its elements once. */
  lemma {:induction false} IncreasingCount(ids: seq<Bytes>)
    requires Increasing(ids)
    ensures |Elements(ids)| == |ids|
  {
    if ids != [] {
      TailElements(ids);
      IncreasingCount(ids[1..]);
      assert ids[0] in Elements(ids);
    }
  }

  /** The first place where two IDs differ. */
  predicate DiffersFirst(a: Bytes, b: Bytes, i: nat) {
    i < |a| && i < |b| && a[i] != b[i] && forall j :: 0 <= j < i ==> a[j] == b[j]
  }

  lemma PrefixTail(a: Bytes, b: Bytes)
    requires a != [] && b != [] && a[0] == b[0]
    ensures a < b <==> a[1..] < b[1..]
  {
    assert a == [a[0]] + a[1..] && b == [b[0]] + b[1..];
    if a[1..] < b[1..] {
      assert forall i :: 0 <= i < |a| ==> a[i] == b[i];
    }
    if a < b {
      assert forall i :: 0 <= i < |a[1..]| ==> a[1..][i] == a[i + 1] == b[i + 1];
    }
  }

  /** The order is this: a proper prefix comes first, and otherwise the smaller byte at the first difference. */
  lemma {:induction false} LessExactly(a: Bytes, b: Bytes)
    ensures Less(a, b) <==> a < b || exists i: nat :: DiffersFirst(a, b, i) && a[i] < b[i]
  {
    if a == [] {
      assert b != [] ==> a < b;
    } else if b == [] {
    } else if a[0] != b[0] {
      assert DiffersFirst(a, b, 0);
      assert !(a < b);
    } else {
      LessExactly(a[1..], b[1..]);
      PrefixTail(a, b);
      if i: nat :| DiffersFirst(a[1..], b[1..], i) && a[1..][i] < b[1..][i] {
        assert DiffersFirst(a, b, i + 1);
      }
      if i: nat :| DiffersFirst(a, b, i) && a[i] < b[i] {
        assert i > 0 && DiffersFirst(a[1..], b[1..], i - 1);
      }
    }
  }
}
