/** Stored files and the age rule of the cleanup: which files of a folder
    are kept, which are deleted, and what the deletions add up to. */
module StorageFiles {

  /** What `stat` reports of a stored file. */
  datatype FileInfo = FileInfo(name: string, size: nat, mtimeMs: int)

  /** The `{ deletedFiles, freedSpace }` a cleanup reports. */
  datatype Tally = Tally(deletedFiles: nat, freedSpace: nat)
  {
    function Plus(other: Tally): Tally
    {
      Tally(deletedFiles + other.deletedFiles, freedSpace + other.freedSpace)
    }
  }

  /** `24 * 60 * 60 * 1000`: milliseconds in a day. */
  const MsPerDay: int := 24 * 60 * 60 * 1000

  /** The default of `daysOld`. */
  const DefaultDaysOld: int := 30

  /** `maxAge`: the age limit in milliseconds. */
  function MaxAge(daysOld: int): int
  {
    daysOld * MsPerDay
  }

  /** `now - fileStat.mtimeMs > maxAge`: strictly older than the limit. */
  predicate Expired(f: FileInfo, now: int, maxAge: int)
  {
    now - f.mtimeMs > maxAge
  }

  predicate AllFresh(files: seq<FileInfo>, now: int, maxAge: int)
  {
    forall i :: 0 <= i < |files| ==> !Expired(files[i], now, maxAge)
  }

  /** The files a cleanup leaves in a date folder, in their order. */
  function Kept(files: seq<FileInfo>, now: int, maxAge: int): (k: seq<FileInfo>)
    ensures |k| <= |files|
    ensures AllFresh(k, now, maxAge)
  {
    if files == [] then []
    else
      var last := files[|files| - 1];
      Kept(files[..|files| - 1], now, maxAge) + (if Expired(last, now, maxAge) then [] else [last])
  }

  /** The files a cleanup deletes from a date folder, in their order. */
  function Removed(files: seq<FileInfo>, now: int, maxAge: int): (r: seq<FileInfo>)
    ensures |r| <= |files|
    ensures forall i :: 0 <= i < |r| ==> Expired(r[i], now, maxAge)
  {
    if files == [] then []
    else
      var last := files[|files| - 1];
      Removed(files[..|files| - 1], now, maxAge) + (if Expired(last, now, maxAge) then [last] else [])
  }

  /** The sum of the sizes of `files`. */
  function Bytes(files: seq<FileInfo>): nat
  {
    if files == [] then 0 else Bytes(files[..|files| - 1]) + files[|files| - 1].size
  }

  /** What deleting the expired files of one folder counts and frees. */
  function FilesTally(files: seq<FileInfo>, now: int, maxAge: int): Tally
  {
    var r := Removed(files, now, maxAge);
    Tally(|r|, Bytes(r))
  }

  /** A folder's files split into the kept and the deleted ones: nothing is
      lost or duplicated, and the bytes add up. */
  lemma {:induction false} KeptRemovedPartition(files: seq<FileInfo>, now: int, maxAge: int)
    ensures |Kept(files, now, maxAge)| + |Removed(files, now, maxAge)| == |files|
    ensures Bytes(Kept(files, now, maxAge)) + Bytes(Removed(files, now, maxAge)) == Bytes(files)
  {
    if files != [] {
      var pre := files[..|files| - 1];
      var last := files[|files| - 1];
      KeptRemovedPartition(pre, now, maxAge);
      if Expired(last, now, maxAge) {
        assert Kept(files, now, maxAge) == Kept(pre, now, maxAge);
        assert Removed(files, now, maxAge) == Removed(pre, now, maxAge) + [last];
        BytesSnoc(Removed(pre, now, maxAge), last);
      } else {
        assert Kept(files, now, maxAge) == Kept(pre, now, maxAge) + [last];
        assert Removed(files, now, maxAge) == Removed(pre, now, maxAge);
        BytesSnoc(Kept(pre, now, maxAge), last);
      }
    }
  }

  /** Every file of a folder is either kept or deleted, and only once. */
  lemma {:induction false} KeptRemovedPermutation(files: seq<FileInfo>, now: int, maxAge: int)
    ensures multiset(Kept(files, now, maxAge)) + multiset(Removed(files, now, maxAge)) == multiset(files)
  {
    if files != [] {
      var pre := files[..|files| - 1];
      var last := files[|files| - 1];
      KeptRemovedPermutation(pre, now, maxAge);
      var k := Kept(pre, now, maxAge);
      var r := Removed(pre, now, maxAge);
      assert files == pre + [last];
      var expired := Expired(last, now, maxAge);
      assert Kept(files, now, maxAge) == if expired then k else k + [last];
      assert Removed(files, now, maxAge) == if expired then r + [last] else r;
      PartitionSnoc(k, r, pre, last, expired);
    }
  }

  /** Sending one more element to one side of a split of `pre` splits
      `pre + [x]`. */
  lemma PartitionSnoc<T>(k: seq<T>, r: seq<T>, pre: seq<T>, x: T, toRemoved: bool)
    requires multiset(k) + multiset(r) == multiset(pre)
    ensures toRemoved ==> multiset(k) + multiset(r + [x]) == multiset(pre + [x])
    ensures !toRemoved ==> multiset(k + [x]) + multiset(r) == multiset(pre + [x])
  {
    assert multiset(pre + [x]) == multiset(pre) + multiset{x};
    assert multiset(r + [x]) == multiset(r) + multiset{x};
    assert multiset(k + [x]) == multiset(k) + multiset{x};
  }

  lemma BytesSnoc(files: seq<FileInfo>, f: FileInfo)
    ensures Bytes(files + [f]) == Bytes(files) + f.size
  {
    assert (files + [f])[..|files|] == files;
  }

  /** Keeping acts on each part of a listing separately. */
  lemma {:induction false} KeptConcat(a: seq<FileInfo>, b: seq<FileInfo>, now: int, maxAge: int)
    ensures Kept(a + b, now, maxAge) == Kept(a, now, maxAge) + Kept(b, now, maxAge)
    decreases |b|
  {
    if b == [] {
      assert a + b == a;
    } else {
      var pre := b[..|b| - 1];
      var last := b[|b| - 1];
      KeptConcat(a, pre, now, maxAge);
      assert (a + b)[..|a + b| - 1] == a + pre;
      assert (a + b)[|a + b| - 1] == last;
      var tail := if Expired(last, now, maxAge) then [] else [last];
      assert Kept(a + b, now, maxAge) == Kept(a + pre, now, maxAge) + tail;
      assert Kept(b, now, maxAge) == Kept(pre, now, maxAge) + tail;
    }
  }

  /** Deleting acts on each part of a listing separately. */
  lemma {:induction false} RemovedConcat(a: seq<FileInfo>, b: seq<FileInfo>, now: int, maxAge: int)
    ensures Removed(a + b, now, maxAge) == Removed(a, now, maxAge) + Removed(b, now, maxAge)
    decreases |b|
  {
    if b == [] {
      assert a + b == a;
    } else {
      var pre := b[..|b| - 1];
      var last := b[|b| - 1];
      RemovedConcat(a, pre, now, maxAge);
      assert (a + b)[..|a + b| - 1] == a + pre;
      assert (a + b)[|a + b| - 1] == last;
      var tail := if Expired(last, now, maxAge) then [last] else [];
      assert Removed(a + b, now, maxAge) == Removed(a + pre, now, maxAge) + tail;
      assert Removed(b, now, maxAge) == Removed(pre, now, maxAge) + tail;
    }
  }

  /** The bytes of two listings add up. */
  lemma {:induction false} BytesConcat(a: seq<FileInfo>, b: seq<FileInfo>)
    ensures Bytes(a + b) == Bytes(a) + Bytes(b)
    decreases |b|
  {
    if b == [] {
      assert a + b == a;
    } else {
      var pre := b[..|b| - 1];
      BytesConcat(a, pre);
      assert (a + b)[..|a + b| - 1] == a + pre;
    }
  }

  /** The tally of two listings adds up. */
  lemma FilesTallyConcat(a: seq<FileInfo>, b: seq<FileInfo>, now: int, maxAge: int)
    ensures FilesTally(a + b, now, maxAge) == FilesTally(a, now, maxAge).Plus(FilesTally(b, now, maxAge))
  {
    RemovedConcat(a, b, now, maxAge);
    BytesConcat(Removed(a, now, maxAge), Removed(b, now, maxAge));
  }

  /** A folder whose files are all fresh is left as it is. */
  lemma {:induction false} FreshFilesKept(files: seq<FileInfo>, now: int, maxAge: int)
    requires AllFresh(files, now, maxAge)
    ensures Kept(files, now, maxAge) == files
    ensures Removed(files, now, maxAge) == []
  {
    if files != [] {
      FreshFilesKept(files[..|files| - 1], now, maxAge);
      assert files == files[..|files| - 1] + [files[|files| - 1]];
    }
  }

  /** A file is deleted exactly when its last change lies more than
      `daysOld` whole days of milliseconds before now; one exactly at the
      limit is kept. */
  lemma ExpiryBoundary(f: FileInfo, now: int, daysOld: int)
    ensures Expired(f, now, MaxAge(daysOld)) <==> f.mtimeMs < now - daysOld * 86400000
    ensures f.mtimeMs == now - MaxAge(daysOld) ==> !Expired(f, now, MaxAge(daysOld))
  {
  }

  /** `daysOld` defaults to 30 days, 2592000000 ms. */
  lemma DefaultMaxAge()
    ensures MaxAge(DefaultDaysOld) == 2592000000
  {
  }
}

