/** The article store: an index of message IDs kept beside a directory of percent-encoded file names. */
module ArticleStores {
  import opened ByteStrings
  import opened FileNames
  import opened Ordering

  /** The index and the directory, as values. */
  datatype Store = Store(articles: set<Bytes>, files: map<Bytes, Bytes>)

  ghost function FileNamesOf(ids: set<Bytes>): set<Bytes> {
    set id | id in ids :: PathEscape(id)
  }

  /** Names that join to the directory itself or to its parent. */
  predicate IsDirectoryName(name: Bytes) {
    name == [] || name == "." || name == ".."
  }

  function Moved(files: map<Bytes, Bytes>, from: Bytes, to: Bytes): map<Bytes, Bytes>
    requires from in files
  {
    (files - {from})[to := files[from]]
  }

  function Committed(s: Store, id: Bytes, temp: Bytes): Store
    requires temp in s.files
  {
    Store(s.articles + {id}, Moved(s.files, temp, PathEscape(id)))
  }

  ghost function Without(s: Store, gone: set<Bytes>): Store {
    Store(s.articles - gone, s.files - FileNamesOf(gone))
  }

  predicate IsArticleFile(name: Bytes) {
    !(TEMP_PREFIX <= name) && PathUnescape(name).Some? && PathUnescape(name).value != []
  }

  /** The IDs a reload reads back from the directory. */
  ghost function Indexed(names: set<Bytes>): set<Bytes> {
    set name | name in names && IsArticleFile(name) :: PathUnescape(name).value
  }

  ghost function Reloaded(s: Store): Store {
    Store(Indexed(s.files.Keys), s.files)
  }

  ghost function Matching(ids: set<Bytes>, prefix: Bytes): set<Bytes> {
    set id | id in ids && prefix <= id
  }

  /** The elements of a set in increasing order. */
  ghost function Ranked(ids: set<Bytes>): (r: seq<Bytes>)
    ensures Increasing(r) && Elements(r) == ids
  {
    if ids == {} then []
    else
      var id :| id in ids;
      var rest := Ranked(ids - {id});
      assert id !in Elements(rest);
      InsertIncreasing(id, rest);
      Insert(id, rest)
  }

  /** The part of the matching articles a percentage asks for, rounded down. */
  function Share(matched: nat, percentage: int): (limit: nat)
    requires 0 <= percentage <= 100
    ensures limit <= matched
    ensures limit * 100 <= matched * percentage < (limit + 1) * 100
  {
    matched * percentage / 100
  }

  /** What the store serves under an ID. */
  function Lookup(s: Store, id: Bytes): Option<Bytes> {
    if id in s.articles && PathEscape(id) in s.files then Some(s.files[PathEscape(id)]) else None
  }

  // ----- the file system

  datatype RenameOutcome = Renamed | TargetExists | RenameFailed
  datatype RemoveOutcome = Removed | Missing | RemoveFailed

  /** One directory of files: renames are atomic and a removal may fail. */
  class Directory {
    var files: map<Bytes, Bytes>

    constructor ()
      ensures files == map[]
    {
      files := map[];
    }

    /** os.CreateTemp, which picks the suffix so that the name is free. */
    method CreateTemp(suffix: Bytes) returns (name: Bytes)
      requires TEMP_PREFIX + suffix !in files
      modifies this
      ensures name == TEMP_PREFIX + suffix && files == old(files)[name := []]
    {
      name := TEMP_PREFIX + suffix;
      files := files[name := []];
    }

    method Write(name: Bytes, contents: Bytes)
      requires name in files
      modifies this
      ensures files == old(files)[name := contents]
    {
      files := files[name := contents];
    }

    method Rename(from: Bytes, to: Bytes, fails: bool) returns (outcome: RenameOutcome)
      modifies this
      ensures outcome == TargetExists <==> IsDirectoryName(to)
      ensures outcome == Renamed <==> from in old(files) && !IsDirectoryName(to) && !fails
      ensures outcome == Renamed ==> files == Moved(old(files), from, to)
      ensures outcome != Renamed ==> files == old(files)
    {
      if IsDirectoryName(to) {
        outcome := TargetExists;
      } else if fails || from !in files {
        outcome := RenameFailed;
      } else {
        files := Moved(files, from, to);
        outcome := Renamed;
      }
    }

    method Remove(name: Bytes, fails: bool) returns (outcome: RemoveOutcome)
      modifies this
      ensures outcome == RemoveFailed <==> fails
      ensures outcome == Missing <==> !fails && name !in old(files)
      ensures files == if fails then old(files) else old(files) - {name}
    {
      if fails {
        outcome := RemoveFailed;
      } else if name in files {
        files := files - {name};
        outcome := Removed;
      } else {
        outcome := Missing;
      }
    }
  }

  // ----- the store

  datatype CommitResult = Stored | Duplicate | StorageError
  datatype DeleteResult = Deleted | Absent | DeleteFailed
  datatype PrefixResult = InvalidPercentage | Prefix(matched: nat, deleted: nat, failed: bool)

  lemma IndexedOneMore(names: set<Bytes>, name: Bytes)
    ensures Indexed(names + {name})
         == Indexed(names) + if IsArticleFile(name) then {PathUnescape(name).value} else {}
  {}

  lemma WithoutNone(s: Store, ids: seq<Bytes>)
    ensures Without(s, Elements(ids[..0])) == s
  {
    assert Elements(ids[..0]) == {};
    assert FileNamesOf({}) == {};
  }

  lemma WithoutOneMore(s: Store, ids: seq<Bytes>, k: nat)
    requires k < |ids|
    ensures Without(s, Elements(ids[..k + 1]))
         == Without(Without(s, Elements(ids[..k])), {ids[k]})
  {
    assert Elements(ids[..k + 1]) == Elements(ids[..k]) + {ids[k]};
    var a := Elements(ids[..k]);
    assert FileNamesOf(a + {ids[k]}) == FileNamesOf(a) + FileNamesOf({ids[k]});
  }

  /** So many removals, up to the limit or to the first that fails. */
  ghost predicate StopsAtFirstFailure(limit: nat, fails: nat -> bool, deleted: nat) {
    deleted <= limit && (forall k: nat :: k < deleted ==> !fails(k)) && (deleted < limit ==> fails(deleted))
  }

  class ArticleStore {
    var articles: set<Bytes>
    const directory: Directory

    constructor (directory: Directory)
      ensures this.directory == directory && articles == {}
    {
      this.directory := directory;
      articles := {};
    }

    ghost function View(): Store
      reads this, directory
    {
      Store(articles, directory.files)
    }

    method Load(id: Bytes) returns (contents: Option<Bytes>)
      ensures contents == Lookup(View(), id)
    {
      if id !in articles || PathEscape(id) !in directory.files {
        return None;
      }
      return Some(directory.files[PathEscape(id)]);
    }

    method Commit(id: Bytes, temp: Bytes, fails: bool) returns (result: CommitResult)
      modifies this, directory
      ensures result == Duplicate <==> id in old(articles) || IsDirectoryName(PathEscape(id))
      ensures result == StorageError <==> result != Duplicate && (fails || temp !in old(directory.files))
      ensures result == Stored ==> View() == Committed(old(View()), id, temp)
      ensures result != Stored ==> View() == old(View())
    {
      if id in articles {
        return Duplicate;
      }
      var outcome := directory.Rename(temp, PathEscape(id), fails);
      if outcome != Renamed {
        return if outcome == TargetExists then Duplicate else StorageError;
      }
      articles := articles + {id};
      return Stored;
    }

    /** A file that is gone already does not keep its ID. */
    method DeleteById(id: Bytes, fails: bool) returns (result: DeleteResult)
      modifies this, directory
      ensures result == Absent <==> id !in old(articles)
      ensures result == DeleteFailed <==> id in old(articles) && fails
      ensures View() == if result == Deleted then Without(old(View()), {id}) else old(View())
    {
      if id !in articles {
        return Absent;
      }
      var outcome := directory.Remove(PathEscape(id), fails);
      if outcome == RemoveFailed {
        return DeleteFailed;
      }
      articles := articles - {id};
      assert FileNamesOf({id}) == {PathEscape(id)};
      return Deleted;
    }

    /** The removal loop: stops at the first file that cannot be removed. */
    method RemoveFirst(ids: seq<Bytes>, limit: nat, fails: nat -> bool) returns (deleted: nat, failed: bool)
      requires limit <= |ids|
      modifies this, directory
      ensures StopsAtFirstFailure(limit, fails, deleted) && (failed <==> deleted < limit)
      ensures View() == Without(old(View()), Elements(ids[..deleted]))
    {
      deleted := 0;
      WithoutNone(View(), ids);
      while deleted < limit
        invariant deleted <= limit && forall k: nat :: k < deleted ==> !fails(k)
        invariant View() == Without(old(View()), Elements(ids[..deleted]))
      {
        var outcome := directory.Remove(PathEscape(ids[deleted]), fails(deleted));
        if outcome == RemoveFailed {
          return deleted, true;
        }
        articles := articles - {ids[deleted]};
        WithoutOneMore(old(View()), ids, deleted);
        assert FileNamesOf({ids[deleted]}) == {PathEscape(ids[deleted])};
        deleted := deleted + 1;
      }
      return deleted, false;
    }

    /** The matching IDs as sort.Strings leaves them, whatever order the map yields them in. */
    method MatchingIds(prefix: Bytes) returns (ids: seq<Bytes>)
      ensures ids == Ranked(Matching(articles, prefix))
    {
      ids := [];
      var pending := articles;
      while pending != {}
        invariant pending <= articles
        invariant Elements(ids) == Matching(articles - pending, prefix)
        invariant forall i, j :: 0 <= i < j < |ids| ==> ids[i] != ids[j]
        decreases pending
      {
        var id :| id in pending;
        if prefix <= id {
          assert id !in Elements(ids);
          assert Elements(ids + [id]) == Elements(ids) + {id};
          ids := ids + [id];
        }
        assert Matching(articles - (pending - {id}), prefix)
            == Matching(articles - pending, prefix) + Matching({id}, prefix);
        pending := pending - {id};
      }
      assert articles - {} == articles;
      SortIncreasing(ids);
      ids := Sort(ids);
      IncreasingUnique(ids, Ranked(Matching(articles, prefix)));
    }

    /** Removes the first ids of the increasing list of matching IDs, and stops at the first failed removal. */
    method DeleteByPrefix(prefix: Bytes, percentage: int, fails: nat -> bool) returns (result: PrefixResult)
      modifies this, directory
      ensures result == InvalidPercentage <==> percentage < 0 || percentage > 100
      ensures result == InvalidPercentage ==> View() == old(View())
      ensures result.Prefix? ==>
                var ids := Ranked(Matching(old(articles), prefix));
                && result.matched == |ids|
                && StopsAtFirstFailure(Share(|ids|, percentage), fails, result.deleted)
                && (result.failed <==> result.deleted < Share(|ids|, percentage))
                && View() == Without(old(View()), Elements(ids[..result.deleted]))
    {
      if percentage < 0 || percentage > 100 {
        return InvalidPercentage;
      }
      var ids := MatchingIds(prefix);
      var matched := |ids|;
      var limit := Share(matched, percentage);
      var deleted, failed := RemoveFirst(ids, limit, fails);
      return Prefix(matched, deleted, failed);
    }

    /** Rebuilds the index from the directory; a directory that cannot be read leaves it alone. */
    method Reload(fails: bool) returns (count: Option<nat>)
      modifies this
      ensures count.None? <==> fails
      ensures count.Some? ==> View() == Reloaded(old(View())) && count.value == |articles|
      ensures count.None? ==> View() == old(View())
    {
      if fails {
        return None;
      }
      var found: set<Bytes> := {};
      var pending := directory.files.Keys;
      while pending != {}
        invariant pending <= directory.files.Keys
        invariant found == Indexed(directory.files.Keys - pending)
        decreases pending
      {
        var name :| name in pending;
        var decoded := PathUnescape(name);
        if !(TEMP_PREFIX <= name) && decoded.Some? && decoded.value != [] {
          found := found + {decoded.value};
        }
        IndexedOneMore(directory.files.Keys - pending, name);
        assert directory.files.Keys - (pending - {name}) == directory.files.Keys - pending + {name};
        pending := pending - {name};
      }
      assert directory.files.Keys - {} == directory.files.Keys;
      articles := found;
      return Some(|articles|);
    }
  }
}
