/** Every run of the article store from an empty directory: posts in flight, commits, deletes that may
    stop part-way, and reloads. A failed operation changes nothing, so a run lists what took effect. */
module StoreRuns {
  import opened ByteStrings
  import opened FileNames
  import opened Ordering
  import opened ArticleStores

  /** The store, the files of posts in flight, and the contents each ID was last stored with. */
  datatype World = World(store: Store, temps: set<Bytes>, posted: map<Bytes, Bytes>)

  const EMPTY := World(Store({}, map[]), {}, map[])

  datatype Op =
    | Receive(temp: Bytes, contents: Bytes)
    | Abandon(temp: Bytes)
    | Commit(id: Bytes, temp: Bytes)
    | DeleteId(id: Bytes)
    | DeletePrefix(prefix: Bytes, percentage: int, deleted: nat)
    | Reload

  ghost predicate Enabled(w: World, op: Op) {
    match op
    case Receive(temp, _) => TEMP_PREFIX <= temp && temp !in w.store.files
    case Abandon(temp) => temp in w.temps
    case Commit(id, temp) =>
      && temp in w.temps && temp in w.store.files
      && id != [] && id !in w.store.articles && !IsDirectoryName(PathEscape(id))
    case DeleteId(id) => id in w.store.articles
    case DeletePrefix(prefix, percentage, deleted) =>
      0 <= percentage <= 100 && deleted <= Share(|Ranked(Matching(w.store.articles, prefix))|, percentage)
    case Reload => true
  }

  ghost function Apply(w: World, op: Op): World
    requires Enabled(w, op)
  {
    match op
    case Receive(temp, contents) =>
      w.(store := Store(w.store.articles, w.store.files[temp := contents]), temps := w.temps + {temp})
    case Abandon(temp) =>
      w.(store := Store(w.store.articles, w.store.files - {temp}), temps := w.temps - {temp})
    case Commit(id, temp) =>
      World(Committed(w.store, id, temp), w.temps - {temp}, w.posted[id := w.store.files[temp]])
    case DeleteId(id) => w.(store := Without(w.store, {id}))
    case DeletePrefix(prefix, percentage, deleted) =>
      w.(store := Without(w.store, Elements(Ranked(Matching(w.store.articles, prefix))[..deleted])))
    case Reload => w.(store := Reloaded(w.store))
  }

  /** The name does not belong to another post in flight. */
  predicate NoClash(w: World, id: Bytes, temp: Bytes) {
    PathEscape(id) !in w.temps - {temp}
  }

  predicate IsOrdinaryId(id: Bytes) {
    !(TEMP_PREFIX <= id)
  }

  /** The files are the posts in flight and, apart from them, one file per indexed ID,
      which holds what that ID was posted with. */
  ghost predicate Agree(w: World) {
    && w.store.files.Keys == w.temps + FileNamesOf(w.store.articles)
    && w.temps !! FileNamesOf(w.store.articles)
    && (forall temp :: temp in w.temps ==> TEMP_PREFIX <= temp)
    && (forall id :: id in w.store.articles ==>
          id != [] && id in w.posted && w.store.files[PathEscape(id)] == w.posted[id])
  }

  lemma FileNamesDiffer(ids: set<Bytes>, gone: set<Bytes>)
    requires gone <= ids
    ensures FileNamesOf(ids - gone) == FileNamesOf(ids) - FileNamesOf(gone)
  {
    forall id, other | id in ids - gone && other in gone ensures PathEscape(id) != PathEscape(other) {
      if PathEscape(id) == PathEscape(other) {
        EscapeInjective(id, other);
      }
    }
  }

  lemma RemovalAgrees(w: World, gone: set<Bytes>)
    requires Agree(w) && gone <= w.store.articles
    ensures Agree(w.(store := Without(w.store, gone)))
  {
    FileNamesDiffer(w.store.articles, gone);
    var left := Without(w.store, gone);
    forall id | id in left.articles ensures PathEscape(id) in left.files {
      assert PathEscape(id) in FileNamesOf(w.store.articles - gone);
    }
  }

  lemma EscapedTempPrefix(id: Bytes)
    ensures TEMP_PREFIX <= PathEscape(id) <==> TEMP_PREFIX <= id
  {
    EscapeKeepsPlainPrefix(TEMP_PREFIX, id);
  }

  /** Storing an article keeps index and directory in agreement exactly when its file name is not the
      name of another post in flight. */
  lemma CommitAgrees(w: World, id: Bytes, temp: Bytes)
    requires Agree(w) && Enabled(w, Commit(id, temp))
    ensures Agree(Apply(w, Commit(id, temp))) <==> NoClash(w, id, temp)
  {
    var next := Apply(w, Commit(id, temp));
    var name := PathEscape(id);
    var names := FileNamesOf(w.store.articles);
    assert next.store.articles == w.store.articles + {id};
    assert FileNamesOf(next.store.articles) == names + {name};
    if name in names {
      var other :| other in w.store.articles && PathEscape(other) == name;
      EscapeInjective(id, other);
      assert false;
    }
    if NoClash(w, id, temp) {
      forall other | other in w.store.articles
        ensures PathEscape(other) in next.store.files && next.store.files[PathEscape(other)] == w.posted[other]
      {
        assert PathEscape(other) in names;
      }
      assert next.store.files.Keys == next.temps + FileNamesOf(next.store.articles);
    } else {
      assert name in next.temps && name in FileNamesOf(next.store.articles);
    }
  }

  /** An ID that does not look like a temporary file never clashes. */
  lemma OrdinaryIdsNeverClash(w: World, id: Bytes, temp: Bytes)
    requires Agree(w) && IsOrdinaryId(id)
    ensures NoClash(w, id, temp)
  {
    EscapedTempPrefix(id);
  }

  /** Under agreement a reload keeps the articles whose IDs do not look like temporary files. */
  lemma ReloadedIndex(w: World)
    requires Agree(w)
    ensures Indexed(w.store.files.Keys) == set id | id in w.store.articles && IsOrdinaryId(id)
  {
    var kept := set id | id in w.store.articles && IsOrdinaryId(id);
    forall name | name in w.store.files.Keys && IsArticleFile(name) ensures PathUnescape(name).value in kept {
      var id :| id in w.store.articles && PathEscape(id) == name;
      UnescapeUndoesEscape(id);
      EscapedTempPrefix(id);
    }
    forall id | id in kept ensures id in Indexed(w.store.files.Keys) {
      assert PathEscape(id) in FileNamesOf(w.store.articles);
      UnescapeUndoesEscape(id);
      EscapedTempPrefix(id);
      assert IsArticleFile(PathEscape(id));
    }
  }

  /** A reload, and so a restart on the same directory, gives back the same index exactly when no
      indexed ID looks like a temporary file. */
  lemma ReloadKeepsIndex(w: World)
    requires Agree(w)
    ensures Reloaded(w.store) == w.store <==> forall id :: id in w.store.articles ==> IsOrdinaryId(id)
  {
    ReloadedIndex(w);
  }

  // ----- runs

  ghost predicate IsRun(w: World, ops: seq<Op>)
    decreases |ops|
  {
    ops == [] || (Enabled(w, ops[0]) && IsRun(Apply(w, ops[0]), ops[1..]))
  }

  ghost function After(w: World, ops: seq<Op>): World
    requires IsRun(w, ops)
    decreases |ops|
  {
    if ops == [] then w else After(Apply(w, ops[0]), ops[1..])
  }

  predicate StoresOrdinaryIds(ops: seq<Op>) {
    forall i :: 0 <= i < |ops| && ops[i].Commit? ==> IsOrdinaryId(ops[i].id)
  }

  ghost predicate Ordinary(w: World) {
    Agree(w) && forall id :: id in w.store.articles ==> IsOrdinaryId(id)
  }

  lemma ReceiveAgrees(w: World, temp: Bytes, contents: Bytes)
    requires Agree(w) && Enabled(w, Receive(temp, contents))
    ensures Agree(Apply(w, Receive(temp, contents)))
  {
    var next := Apply(w, Receive(temp, contents));
    forall id | id in w.store.articles ensures next.store.files[PathEscape(id)] == w.posted[id] {
      assert PathEscape(id) in FileNamesOf(w.store.articles);
    }
  }

  lemma AbandonAgrees(w: World, temp: Bytes)
    requires Agree(w) && Enabled(w, Abandon(temp))
    ensures Agree(Apply(w, Abandon(temp)))
  {
    var next := Apply(w, Abandon(temp));
    forall id | id in w.store.articles
      ensures PathEscape(id) in next.store.files && next.store.files[PathEscape(id)] == w.posted[id]
    {
      assert PathEscape(id) in FileNamesOf(w.store.articles);
    }
  }

  lemma StepKeepsOrdinary(w: World, op: Op)
    requires Ordinary(w) && Enabled(w, op)
    requires op.Commit? ==> IsOrdinaryId(op.id)
    ensures Ordinary(Apply(w, op))
  {
    match op
    case Receive(temp, contents) =>
      ReceiveAgrees(w, temp, contents);
    case Abandon(temp) =>
      AbandonAgrees(w, temp);
    case Commit(id, temp) =>
      OrdinaryIdsNeverClash(w, id, temp);
      CommitAgrees(w, id, temp);
    case DeleteId(id) =>
      RemovalAgrees(w, {id});
    case DeletePrefix(prefix, percentage, deleted) =>
      var ids := Ranked(Matching(w.store.articles, prefix));
      assert Elements(ids[..deleted]) <= Elements(ids);
      RemovalAgrees(w, Elements(ids[..deleted]));
    case Reload =>
      ReloadKeepsIndex(w);
  }

  /** In every run that stores ordinary IDs, index and directory agree throughout, every indexed article
      has the contents it was posted with, and a reload or a restart changes nothing. */
  lemma {:induction false} EveryRunAgrees(w: World, ops: seq<Op>)
    requires Ordinary(w) && IsRun(w, ops) && StoresOrdinaryIds(ops)
    ensures Ordinary(After(w, ops))
    ensures Reloaded(After(w, ops).store) == After(w, ops).store
    decreases |ops|
  {
    if ops == [] {
      ReloadKeepsIndex(w);
    } else {
      StepKeepsOrdinary(w, ops[0]);
      assert forall i :: 0 <= i < |ops[1..]| ==> ops[1..][i] == ops[i + 1];
      EveryRunAgrees(Apply(w, ops[0]), ops[1..]);
    }
  }

  lemma EveryRunFromEmptyAgrees(ops: seq<Op>)
    requires IsRun(EMPTY, ops) && StoresOrdinaryIds(ops)
    ensures Ordinary(After(EMPTY, ops))
    ensures Reloaded(After(EMPTY, ops).store) == After(EMPTY, ops).store
  {
    assert FileNamesOf({}) == {};
    EveryRunAgrees(EMPTY, ops);
  }

  /** After every such run, an ID is served exactly while it is indexed, and then with the contents it was last
      posted with, through every commit, delete and reload in between. */
  lemma EveryArticleIsServed(ops: seq<Op>, id: Bytes)
    requires IsRun(EMPTY, ops) && StoresOrdinaryIds(ops)
    ensures var w := After(EMPTY, ops);
            && (Lookup(w.store, id).Some? <==> id in w.store.articles)
            && (id in w.store.articles ==> id in w.posted && Lookup(w.store, id) == Some(w.posted[id]))
  {
    EveryRunFromEmptyAgrees(ops);
    var w := After(EMPTY, ops);
    if id in w.store.articles {
      assert PathEscape(id) in FileNamesOf(w.store.articles);
    }
  }

  /** Two posts are in flight, and the first one to end stores its article under the other's file name. */
  function ClashingPosts(first: Bytes, second: Bytes, contents: Bytes, other: Bytes): seq<Op> {
    [Receive(first, contents), Receive(second, other), Commit(second, first)]
  }

  lemma InFlightAgrees(first: Bytes, second: Bytes, contents: Bytes, other: Bytes) returns (w: World)
    requires TEMP_PREFIX <= first && TEMP_PREFIX <= second && first != second
    ensures IsRun(EMPTY, [Receive(first, contents), Receive(second, other)])
    ensures w == After(EMPTY, [Receive(first, contents), Receive(second, other)])
    ensures w == World(Store({}, map[first := contents, second := other]), {first, second}, map[]) && Agree(w)
  {
    var ops := [Receive(first, contents), Receive(second, other)];
    assert FileNamesOf({}) == {};
    var one := Apply(EMPTY, ops[0]);
    ReceiveAgrees(EMPTY, first, contents);
    w := Apply(one, ops[1]);
    ReceiveAgrees(one, second, other);
    assert ops[1..] == [ops[1]] && ops[1..][1..] == [];
    assert IsRun(one, ops[1..]);
    assert After(EMPTY, ops) == After(one, ops[1..]) == After(w, []);
  }

  lemma {:induction false} RunOneMore(w: World, ops: seq<Op>, op: Op)
    requires IsRun(w, ops) && Enabled(After(w, ops), op)
    ensures IsRun(w, ops + [op]) && After(w, ops + [op]) == Apply(After(w, ops), op)
    decreases |ops|
  {
    if ops == [] {
      assert IsRun(Apply(w, op), []);
      assert (ops + [op])[1..] == [];
    } else {
      assert (ops + [op])[1..] == ops[1..] + [op];
      RunOneMore(Apply(w, ops[0]), ops[1..], op);
    }
  }

  /** An article whose ID is the name of another post in flight takes that post's file: index and directory no
      longer agree, and the other post's text is gone. */
  lemma ClashLosesAgreement(first: Bytes, second: Bytes, contents: Bytes, other: Bytes)
    requires TEMP_PREFIX <= first && TEMP_PREFIX <= second && first != second
    requires forall i :: 0 <= i < |second| ==> IsPlain(second[i])
    ensures IsRun(EMPTY, ClashingPosts(first, second, contents, other))
    ensures var w := After(EMPTY, ClashingPosts(first, second, contents, other));
            && !Agree(w) && second in w.temps && w.store.files == map[second := contents]
  {
    var w := InFlightAgrees(first, second, contents, other);
    EscapeOfPlain(second);
    assert Enabled(w, Commit(second, first));
    CommitAgrees(w, second, first);
    RunOneMore(EMPTY, [Receive(first, contents), Receive(second, other)], Commit(second, first));
    assert ClashingPosts(first, second, contents, other)
        == [Receive(first, contents), Receive(second, other)] + [Commit(second, first)];
  }

  /** An accepted article whose ID looks like a temporary file is lost by the next reload. */
  lemma TemporaryLookingIdIsLost(w: World, id: Bytes, temp: Bytes)
    requires Agree(w) && Enabled(w, Commit(id, temp)) && NoClash(w, id, temp) && !IsOrdinaryId(id)
    ensures id in Apply(w, Commit(id, temp)).store.articles
    ensures id !in Reloaded(Apply(w, Commit(id, temp)).store).articles
  {
    CommitAgrees(w, id, temp);
    ReloadedIndex(Apply(w, Commit(id, temp)));
  }

  /** Starting from an empty directory, one post under any such ID is enough. */
  lemma PostedThenLost(id: Bytes, temp: Bytes, contents: Bytes)
    requires TEMP_PREFIX <= temp && TEMP_PREFIX <= id
    ensures IsRun(EMPTY, [Receive(temp, contents), Commit(id, temp)])
    ensures After(EMPTY, [Receive(temp, contents), Commit(id, temp)]).store.articles == {id}
    ensures Reloaded(After(EMPTY, [Receive(temp, contents), Commit(id, temp)]).store).articles == {}
  {
    assert FileNamesOf({}) == {};
    ReceiveAgrees(EMPTY, temp, contents);
    EscapedTempPrefix(id);
    var ops := [Receive(temp, contents), Commit(id, temp)];
    var received := Apply(EMPTY, ops[0]);
    assert ops[1..] == [Commit(id, temp)] && ops[1..][1..] == [];
    assert Enabled(received, ops[1]);
    assert IsRun(received, ops[1..]);
    var w := Apply(received, ops[1]);
    assert After(EMPTY, ops) == After(received, ops[1..]) == After(w, []) == w;
    CommitAgrees(received, id, temp);
    ReloadedIndex(w);
  }

  // ----- deleting by prefix

  lemma FirstAreSmallest(ids: seq<Bytes>, deleted: nat, gone: Bytes, kept: Bytes)
    requires Increasing(ids) && deleted <= |ids|
    requires gone in ids[..deleted] && kept in ids && kept !in ids[..deleted]
    ensures Less(gone, kept)
  {
    var i :| 0 <= i < deleted && ids[..deleted][i] == gone;
    var j :| 0 <= j < |ids| && ids[j] == kept;
    assert forall m :: 0 <= m < deleted ==> ids[m] == ids[..deleted][m];
  }

  lemma FirstAreCounted(articles: set<Bytes>, ids: seq<Bytes>, deleted: nat)
    requires Increasing(ids) && deleted <= |ids| && Elements(ids) <= articles
    ensures Elements(ids[..deleted]) <= Elements(ids)
    ensures |articles - Elements(ids[..deleted])| == |articles| - deleted
  {
    IncreasingCount(ids[..deleted]);
    assert forall id :: id in ids[..deleted] ==> id in ids;
    assert articles == (articles - Elements(ids[..deleted])) + Elements(ids[..deleted]);
  }

  lemma MatchingLeft(articles: set<Bytes>, left: set<Bytes>, prefix: Bytes)
    requires left <= articles
    ensures Matching(left, prefix) == Matching(articles, prefix) * left
  {}

  lemma ShareOfAll(matched: nat)
    ensures Share(matched, 100) == matched
  {}

  /** Every ID in the first set comes before every ID in the second. */
  ghost predicate AllBelow(first: set<Bytes>, second: set<Bytes>) {
    forall a, b :: a in first && b in second ==> Less(a, b)
  }

  lemma FirstAreBelow(ids: seq<Bytes>, deleted: nat)
    requires Increasing(ids) && deleted <= |ids|
    ensures AllBelow(Elements(ids[..deleted]), Elements(ids) - Elements(ids[..deleted]))
  {
    forall g, k | g in Elements(ids[..deleted]) && k in Elements(ids) - Elements(ids[..deleted]) ensures Less(g, k) {
      FirstAreSmallest(ids, deleted, g, k);
    }
  }

  lemma FirstOfRanked(articles: set<Bytes>, matched: set<Bytes>, ids: seq<Bytes>, deleted: nat)
    requires Increasing(ids) && Elements(ids) == matched <= articles && deleted <= |ids|
    ensures var left := articles - Elements(ids[..deleted]);
            && articles - left <= matched
            && |left| == |articles| - deleted
            && AllBelow(articles - left, matched * left)
            && (deleted == |matched| ==> matched * left == {})
  {
    FirstAreCounted(articles, ids, deleted);
    FirstAreBelow(ids, deleted);
    IncreasingCount(ids);
    var gone := Elements(ids[..deleted]);
    assert articles - (articles - gone) == gone;
    assert matched * (articles - gone) == Elements(ids) - gone;
    if deleted == |ids| {
      assert ids[..deleted] == ids;
    }
  }

  /** A prefix delete takes the smallest share of the matching IDs and no other article: what it removed
      is below every match that is left, it counts each removed ID once, and at 100 no match is left. */
  lemma DeletesTheSmallestShare(w: World, prefix: Bytes, percentage: int, deleted: nat)
    requires Enabled(w, DeletePrefix(prefix, percentage, deleted))
    ensures var matched := Matching(w.store.articles, prefix);
            var left := Apply(w, DeletePrefix(prefix, percentage, deleted)).store.articles;
            && left <= w.store.articles && w.store.articles - left <= matched
            && |left| == |w.store.articles| - deleted
            && AllBelow(w.store.articles - left, matched * left)
            && (percentage == 100 && deleted == Share(|matched|, percentage) ==> Matching(left, prefix) == {})
  {
    var matched := Matching(w.store.articles, prefix);
    var ids := Ranked(matched);
    IncreasingCount(ids);
    FirstOfRanked(w.store.articles, matched, ids, deleted);
    var left := w.store.articles - Elements(ids[..deleted]);
    assert Apply(w, DeletePrefix(prefix, percentage, deleted)).store.articles == left;
    MatchingLeft(w.store.articles, left, prefix);
    ShareOfAll(|matched|);
  }

  // ----- IDs that cannot be stored

  /** The IDs whose file names are the directory itself or its parent, so that a commit finds them taken. */
  lemma DirectoryNamesExactly(id: Bytes)
    ensures IsDirectoryName(PathEscape(id)) <==> id == [] || id == ['.'] || id == ['.', '.']
    ensures TEMP_PREFIX == ".incoming-"
  {
    EscapeOfPlain([]);
    EscapeOfPlain(['.']);
    EscapeOfPlain(['.', '.']);
    if PathEscape(id) == PathEscape([]) {
      EscapeInjective(id, []);
    }
    if PathEscape(id) == PathEscape(['.']) {
      EscapeInjective(id, ['.']);
    }
    if PathEscape(id) == PathEscape(['.', '.']) {
      EscapeInjective(id, ['.', '.']);
    }
  }
}
