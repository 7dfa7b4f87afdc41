/** The server's store of processed workbooks: the age-based cleanup, which
    deletes files and prunes folders in place, and the listing and size
    queries over one user's folder. */
module FileStore {
  import opened Wrappers
  import opened StorageNames
  import opened StorageFiles
  import opened StorageTree
  import opened StorageListing

  /** Deletes the expired files of one date folder, counting them and
      adding up their sizes; returns the files that remain. */
  method CleanFiles(files: seq<FileInfo>, now: int, maxAge: int) returns (kept: seq<FileInfo>, tally: Tally)
    ensures kept == Kept(files, now, maxAge)
    ensures tally == FilesTally(files, now, maxAge)
  {
    kept := [];
    var deletedFiles: nat, freedSpace: nat := 0, 0;
    ghost var removed: seq<FileInfo> := [];
    for i := 0 to |files|
      invariant kept == Kept(files[..i], now, maxAge)
      invariant removed == Removed(files[..i], now, maxAge)
      invariant deletedFiles == |removed| && freedSpace == Bytes(removed)
    {
      var file := files[i];
      assert files[..i + 1][..i] == files[..i];
      if now - file.mtimeMs > maxAge {
        freedSpace := freedSpace + file.size;
        deletedFiles := deletedFiles + 1;
        BytesSnoc(removed, file);
        removed := removed + [file];
      } else {
        kept := kept + [file];
      }
    }
    assert files[..|files|] == files;
    tally := Tally(deletedFiles, freedSpace);
  }

  /** One entry of a user folder: a date folder is cleaned and, when left
      empty, removed; any other entry is skipped. Returns what remains of
      the entry. */
  method CleanDateEntry(entry: DateEntry, now: int, maxAge: int) returns (remaining: seq<DateEntry>, tally: Tally)
    ensures remaining == CleanDate(entry, now, maxAge)
    ensures tally == DateTally(entry, now, maxAge)
  {
    match entry {
      case DateOther(_, _) =>
        remaining, tally := [entry], Tally(0, 0);
      case DateFolder(name, files, size) =>
        var kept;
        kept, tally := CleanFiles(files, now, maxAge);
        remaining := if |kept| == 0 then [] else [DateFolder(name, kept, size)];
    }
  }

  /** Cleans every entry of one user folder; returns what remains in it. */
  method CleanDateFolders(dates: seq<DateEntry>, now: int, maxAge: int) returns (remaining: seq<DateEntry>, tally: Tally)
    ensures remaining == CleanDates(dates, now, maxAge)
    ensures tally == DatesTally(dates, now, maxAge)
  {
    remaining := [];
    tally := Tally(0, 0);
    for j := 0 to |dates|
      invariant remaining == CleanDates(dates[..j], now, maxAge)
      invariant tally == DatesTally(dates[..j], now, maxAge)
    {
      CleanDatesStep(dates, j, now, maxAge);
      var left, t := CleanDateEntry(dates[j], now, maxAge);
      remaining := remaining + left;
      tally := tally.Plus(t);
    }
    assert dates[..|dates|] == dates;
  }

  /** One entry of the upload base: a user folder is cleaned and, when
      left empty, removed; any other entry is skipped. Returns what remains
      of the entry. */
  method CleanUserEntry(entry: UserEntry, now: int, maxAge: int) returns (remaining: seq<UserEntry>, tally: Tally)
    ensures remaining == CleanUser(entry, now, maxAge)
    ensures tally == UserTally(entry, now, maxAge)
  {
    match entry {
      case UserOther(_) =>
        remaining, tally := [entry], Tally(0, 0);
      case UserFolder(name, dates) =>
        var left;
        left, tally := CleanDateFolders(dates, now, maxAge);
        remaining := if |left| == 0 then [] else [UserFolder(name, left)];
    }
  }

  /** The paths of the files of every date folder among `dates`, in
      listing order. */
  method CollectPaths(user: string, dates: seq<DateEntry>) returns (paths: seq<StoredPath>)
    ensures paths == DatesPaths(user, dates)
  {
    paths := [];
    for j := 0 to |dates|
      invariant paths == DatesPaths(user, dates[..j])
    {
      var entry := dates[j];
      assert dates[..j + 1][..j] == dates[..j];
      match entry {
        case DateOther(_, _) =>
        case DateFolder(name, files, _) =>
          ghost var before := paths;
          for i := 0 to |files|
            invariant paths == before + DatePaths(user, entry)[..i]
          {
            assert DatePaths(user, entry)[..i + 1] == DatePaths(user, entry)[..i] + [StoredPath(user, name, files[i].name)];
            paths := paths + [StoredPath(user, name, files[i].name)];
          }
          assert DatePaths(user, entry)[..|files|] == DatePaths(user, entry);
      }
    }
    assert dates[..|dates|] == dates;
  }

  /** The paths listed when the user folder is the upload base itself:
      the entries of every user folder, in listing order. */
  method CollectBasePaths(users: seq<UserEntry>) returns (paths: seq<StoredPath>)
    ensures paths == BasePaths(users)
  {
    paths := [];
    for k := 0 to |users|
      invariant paths == BasePaths(users[..k])
    {
      var entry := users[k];
      assert users[..k + 1][..k] == users[..k];
      match entry {
        case UserOther(_) =>
        case UserFolder(name, dates) =>
          ghost var before := paths;
          for j := 0 to |dates|
            invariant paths == before + BaseEntryPaths(entry)[..j]
          {
            assert BaseEntryPaths(entry)[..j + 1] == BaseEntryPaths(entry)[..j] + [StoredPath("", name, dates[j].name)];
            paths := paths + [StoredPath("", name, dates[j].name)];
          }
          assert BaseEntryPaths(entry)[..|dates|] == BaseEntryPaths(entry);
      }
    }
    assert users[..|users|] == users;
  }

  /** The loop of `getUserStorageSize`: the size `stat` reports of each
      path added up, skipping a path whose `stat` fails. */
  method AddUpSizes(users: seq<UserEntry>, gone: set<StoredPath>, paths: seq<StoredPath>) returns (totalSize: nat)
    ensures totalSize == SizeOf(users, gone, paths)
  {
    totalSize := 0;
    for k := 0 to |paths|
      invariant totalSize == SizeOf(users, gone, paths[..k])
    {
      assert paths[..k + 1][..k] == paths[..k];
      var info := Stat(users, gone, paths[k]);
      match info {
        case None =>
        case Some(size) =>
          totalSize := totalSize + size;
      }
    }
    assert paths[..|paths|] == paths;
  }

  /** The upload base and everything under it. */
  class Store {
    /** The entries of the upload base, in listing order. A missing upload
        base is an empty one. */
    var users: seq<UserEntry>

    constructor (users: seq<UserEntry>)
      ensures this.users == users
    {
      this.users := users;
    }

    /** `cleanupOldFiles`: deletes every file older than `daysOld` days
        (30 when not given) at the instant `now`, removes the date and user
        folders this leaves empty, and reports how many files it deleted
        and how many bytes they held. */
    method CleanupOldFiles(daysOld: Option<int>, now: int) returns (result: Tally)
      modifies this
      ensures users == CleanUsers(old(users), now, MaxAge(daysOld.GetOr(DefaultDaysOld)))
      ensures result == UsersTally(old(users), now, MaxAge(daysOld.GetOr(DefaultDaysOld)))
    {
      var maxAge := MaxAge(daysOld.GetOr(DefaultDaysOld));
      var userFolders := users;
      var done: seq<UserEntry> := [];
      result := Tally(0, 0);
      for i := 0 to |userFolders|
        invariant done == CleanUsers(userFolders[..i], now, maxAge)
        invariant result == UsersTally(userFolders[..i], now, maxAge)
        invariant users == done + userFolders[i..]
      {
        CleanUsersStep(userFolders, i, now, maxAge);
        var left, t := CleanUserEntry(userFolders[i], now, maxAge);
        done := done + left;
        result := result.Plus(t);
        users := done + userFolders[i + 1..];
      }
      assert userFolders[..|userFolders|] == userFolders;
      assert users == done by {
        assert userFolders[|userFolders|..] == [];
      }
    }

    /** `listUserFiles`: the stored paths of every file in the user's date
        folders; `None` when the user's entry is not a folder. An empty id
        names the upload base, whose user folders are then listed as if
        they were date folders. */
    method ListUserFiles(userId: string) returns (files: Option<seq<StoredPath>>)
      ensures files == ListedFiles(users, userId)
    {
      var id := SanitizeUserId(userId);
      if id == "" {
        var paths := CollectBasePaths(users);
        return Some(paths);
      }
      var entry := FindUser(users, id);
      match entry {
        case None =>
          files := Some([]);
        case Some(UserOther(_)) =>
          files := None;
        case Some(UserFolder(_, dates)) =>
          var paths := CollectPaths(id, dates);
          files := Some(paths);
      }
    }

    /** `getUserStorageSize`: the sizes of the user's listed files added
        up, skipping any file in `gone` (removed after the listing, so that
        its `stat` fails). */
    method GetUserStorageSize(userId: string, gone: set<StoredPath>) returns (total: Option<nat>)
      ensures total == StorageSize(users, userId, gone)
    {
      var listed := ListUserFiles(userId);
      match listed {
        case None =>
          total := None;
        case Some(paths) =>
          var totalSize := AddUpSizes(users, gone, paths);
          total := Some(totalSize);
      }
    }
  }

  /** After a cleanup no expired file and no empty folder is left, every
      fresh file is still there in its order, the report balances the
      store, and a second run finds nothing to do. */
  method CleanupTwice(store: Store, daysOld: Option<int>, now: int) returns (first: Tally, second: Tally)
    modifies store
    ensures var maxAge := MaxAge(daysOld.GetOr(DefaultDaysOld));
            Tidy(store.users, now, maxAge) &&
            AllFiles(store.users) == Kept(AllFiles(old(store.users)), now, maxAge) &&
            |AllFiles(store.users)| + first.deletedFiles == |AllFiles(old(store.users))| &&
            Bytes(AllFiles(store.users)) + first.freedSpace == Bytes(AllFiles(old(store.users)))
    ensures second == Tally(0, 0)
  {
    ghost var maxAge := MaxAge(daysOld.GetOr(DefaultDaysOld));
    ghost var before := store.users;
    first := store.CleanupOldFiles(daysOld, now);
    CleanUsersKeepsFresh(before, now, maxAge);
    CleanUsersTidy(before, now, maxAge);
    CleanupConserves(before, now, maxAge);
    ghost var after := store.users;
    second := store.CleanupOldFiles(daysOld, now);
    CleanupIdempotent(before, now, maxAge);
    assert store.users == after;
  }
}
