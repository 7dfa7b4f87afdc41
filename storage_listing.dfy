/** Listing a user's stored files and adding up their sizes, as values:
    paths are looked up by name, level by level, as the filesystem
    resolves them. */
module StorageListing {
  import opened Wrappers
  import opened StorageNames
  import opened StorageFiles
  import opened StorageTree

  /** `path.join('uploads', 'processed', user, date, file)`. */
  datatype StoredPath = StoredPath(user: string, date: string, file: string)

  /** The entry of the upload base called `name`, if there is one. */
  function FindUser(users: seq<UserEntry>, name: string): (r: Option<UserEntry>)
    ensures r.Some? ==> r.value in users && r.value.name == name
    ensures r.None? ==> forall k :: 0 <= k < |users| ==> users[k].name != name
  {
    if users == [] then None
    else if users[0].name == name then Some(users[0])
    else FindUser(users[1..], name)
  }

  /** The entry of a user folder called `name`, if there is one. */
  function FindDate(dates: seq<DateEntry>, name: string): (r: Option<DateEntry>)
    ensures r.Some? ==> r.value in dates && r.value.name == name
    ensures r.None? ==> forall j :: 0 <= j < |dates| ==> dates[j].name != name
  {
    if dates == [] then None
    else if dates[0].name == name then Some(dates[0])
    else FindDate(dates[1..], name)
  }

  /** The file of a date folder called `name`, if there is one. */
  function FindFile(files: seq<FileInfo>, name: string): (r: Option<FileInfo>)
    ensures r.Some? ==> r.value in files && r.value.name == name
    ensures r.None? ==> forall i :: 0 <= i < |files| ==> files[i].name != name
  {
    if files == [] then None
    else if files[0].name == name then Some(files[0])
    else FindFile(files[1..], name)
  }

  /** The paths `listUserFiles` pushes for one entry of a user folder: one
      per file of a date folder, none for anything else. */
  function DatePaths(user: string, e: DateEntry): (ps: seq<StoredPath>)
    ensures |ps| == |DateFiles(e)|
    ensures forall i :: 0 <= i < |ps| ==> ps[i] == StoredPath(user, e.name, DateFiles(e)[i].name)
  {
    match e
    case DateOther(_, _) => []
    case DateFolder(name, files, _) =>
      seq(|files|, i requires 0 <= i < |files| => StoredPath(user, name, files[i].name))
  }

  function DatesPaths(user: string, dates: seq<DateEntry>): (ps: seq<StoredPath>)
    ensures forall i :: 0 <= i < |ps| ==> ps[i].user == user
  {
    if dates == [] then [] else DatesPaths(user, dates[..|dates| - 1]) + DatePaths(user, dates[|dates| - 1])
  }

  /** The entries of a user folder; nothing for an entry that is not a
      folder. */
  function UserDates(u: UserEntry): seq<DateEntry>
  {
    if u.UserFolder? then u.dates else []
  }

  /** The paths `listUserFiles` pushes when the sanitised id is empty and
      the user folder is therefore the upload base itself: each user folder
      is taken for a date folder, and each of its entries for a file. */
  function BaseEntryPaths(u: UserEntry): (ps: seq<StoredPath>)
    ensures |ps| == |UserDates(u)|
    ensures forall j :: 0 <= j < |ps| ==> ps[j] == StoredPath("", u.name, UserDates(u)[j].name)
  {
    match u
    case UserOther(_) => []
    case UserFolder(name, dates) =>
      seq(|dates|, j requires 0 <= j < |dates| => StoredPath("", name, dates[j].name))
  }

  function BasePaths(users: seq<UserEntry>): (ps: seq<StoredPath>)
    ensures forall i :: 0 <= i < |ps| ==> ps[i].user == ""
  {
    if users == [] then [] else BasePaths(users[..|users| - 1]) + BaseEntryPaths(users[|users| - 1])
  }

  /** `listUserFiles`: an empty sanitised id lists the upload base one
      level down; no folder for the user gives no files; an entry of that
      name that is not a folder cannot be listed (`None`); otherwise every
      file of every date folder, in listing order. */
  function ListedFiles(users: seq<UserEntry>, userId: string): (r: Option<seq<StoredPath>>)
    ensures r.None? <==>
              && SanitizeUserId(userId) != ""
              && FindUser(users, SanitizeUserId(userId)).Some?
              && FindUser(users, SanitizeUserId(userId)).value.UserOther?
    ensures r.Some? ==> forall i :: 0 <= i < |r.value| ==> r.value[i].user == SanitizeUserId(userId)
  {
    var id := SanitizeUserId(userId);
    if id == "" then Some(BasePaths(users))
    else match FindUser(users, id)
    case None => Some([])
    case Some(UserOther(_)) => None
    case Some(UserFolder(_, dates)) => Some(DatesPaths(id, dates))
  }

  /** What `stat` reports of the size at `p`, when there is something
      there and it has not been removed (`gone`) since the listing. An empty
      user part drops out of the joined path, which then names an entry of
      a user folder. */
  function Stat(users: seq<UserEntry>, gone: set<StoredPath>, p: StoredPath): Option<nat>
  {
    if p in gone then None
    else if p.user == "" then EntrySize(users, p.date, p.file)
    else FileSize(users, p.user, p.date, p.file)
  }

  /** The size of the entry `entry` of the user folder `user`. */
  function EntrySize(users: seq<UserEntry>, user: string, entry: string): Option<nat>
  {
    match FindUser(users, user)
    case Some(UserFolder(_, dates)) =>
      (match FindDate(dates, entry)
       case Some(e) => Some(e.size)
       case None => None)
    case _ => None
  }

  /** The size of the file `file` in the date folder `date` of `user`. */
  function FileSize(users: seq<UserEntry>, user: string, date: string, file: string): Option<nat>
  {
    match FindUser(users, user)
    case Some(UserFolder(_, dates)) =>
      (match FindDate(dates, date)
       case Some(DateFolder(_, files, _)) =>
         (match FindFile(files, file)
          case Some(f) => Some(f.size)
          case None => None)
       case _ => None)
    case _ => None
  }

  /** The sizes of the listed files whose `stat` succeeds; the others are
      skipped. */
  function SizeOf(users: seq<UserEntry>, gone: set<StoredPath>, paths: seq<StoredPath>): nat
  {
    if paths == [] then 0
    else
      var last := paths[|paths| - 1];
      SizeOf(users, gone, paths[..|paths| - 1]) + Stat(users, gone, last).GetOr(0)
  }

  /** `getUserStorageSize`: the sizes of the listed files added up; a user
      entry that cannot be listed makes the call fail (`None`). */
  function StorageSize(users: seq<UserEntry>, userId: string, gone: set<StoredPath>): (size: Option<nat>)
    ensures size.None? <==> ListedFiles(users, userId).None?
  {
    match ListedFiles(users, userId)
    case None => None
    case Some(paths) => Some(SizeOf(users, gone, paths))
  }

  // ---------------------------------------------------------------------
  // Properties
  // ---------------------------------------------------------------------

  /** No two entries of a folder share a name, as in any directory. */
  predicate DistinctDateNames(dates: seq<DateEntry>)
  {
    forall a, b :: 0 <= a < b < |dates| ==> dates[a].name != dates[b].name
  }

  predicate DistinctFileNames(files: seq<FileInfo>)
  {
    forall a, b :: 0 <= a < b < |files| ==> files[a].name != files[b].name
  }

  /** A user folder as a directory has it: unique entry names at each
      level. */
  predicate WellNamed(dates: seq<DateEntry>)
  {
    DistinctDateNames(dates) && forall j :: 0 <= j < |dates| ==> DistinctFileNames(DateFiles(dates[j]))
  }

  /** Looking up a date folder by its own name finds it. */
  lemma {:induction false} FindDateByName(dates: seq<DateEntry>, j: nat)
    requires j < |dates| && DistinctDateNames(dates)
    ensures FindDate(dates, dates[j].name) == Some(dates[j])
  {
    if j > 0 {
      assert dates[0].name != dates[j].name;
      assert DistinctDateNames(dates[1..]) by {
        forall a, b | 0 <= a < b < |dates| - 1 ensures dates[1..][a].name != dates[1..][b].name {
          assert dates[1..][a] == dates[a + 1] && dates[1..][b] == dates[b + 1];
        }
      }
      FindDateByName(dates[1..], j - 1);
      assert dates[1..][j - 1] == dates[j];
    }
  }

  /** Looking up a file by its own name finds it. */
  lemma {:induction false} FindFileByName(files: seq<FileInfo>, i: nat)
    requires i < |files| && DistinctFileNames(files)
    ensures FindFile(files, files[i].name) == Some(files[i])
  {
    if i > 0 {
      assert files[0].name != files[i].name;
      assert DistinctFileNames(files[1..]) by {
        forall a, b | 0 <= a < b < |files| - 1 ensures files[1..][a].name != files[1..][b].name {
          assert files[1..][a] == files[a + 1] && files[1..][b] == files[b + 1];
        }
      }
      FindFileByName(files[1..], i - 1);
      assert files[1..][i - 1] == files[i];
    }
  }

  lemma {:induction false} SizeOfConcat(users: seq<UserEntry>, gone: set<StoredPath>, a: seq<StoredPath>, b: seq<StoredPath>)
    ensures SizeOf(users, gone, a + b) == SizeOf(users, gone, a) + SizeOf(users, gone, b)
    decreases |b|
  {
    if b == [] {
      assert a + b == a;
    } else {
      SizeOfConcat(users, gone, a, b[..|b| - 1]);
      assert (a + b)[..|a + b| - 1] == a + b[..|b| - 1];
      assert (a + b)[|a + b| - 1] == b[|b| - 1];
    }
  }

  /** The paths of the first `k` files of a date folder, each of which
      `stat` finds, add up to those files' bytes. */
  lemma {:induction false} DateSizeIsBytes(users: seq<UserEntry>, id: string, dates: seq<DateEntry>, j: nat, k: nat)
    requires id != "" && FindUser(users, id) == Some(UserFolder(id, dates))
    requires j < |dates| && WellNamed(dates) && dates[j].DateFolder?
    requires k <= |dates[j].files|
    ensures SizeOf(users, {}, DatePaths(id, dates[j])[..k]) == Bytes(dates[j].files[..k])
  {
    if k > 0 {
      var e := dates[j];
      var ps := DatePaths(id, e);
      DateSizeIsBytes(users, id, dates, j, k - 1);
      assert SizeOf(users, {}, ps[..k]) == SizeOf(users, {}, ps[..k - 1]) + Stat(users, {}, ps[k - 1]).GetOr(0) by {
        assert ps[..k][..k - 1] == ps[..k - 1];
      }
      assert Bytes(e.files[..k]) == Bytes(e.files[..k - 1]) + e.files[k - 1].size by {
        assert e.files[..k][..k - 1] == e.files[..k - 1];
      }
      assert ps[k - 1] == StoredPath(id, e.name, e.files[k - 1].name);
      StatFindsFile(users, id, dates, j, k - 1);
    }
  }

  /** `stat` of a listed file of a well-named folder reports its size. */
  lemma StatFindsFile(users: seq<UserEntry>, id: string, dates: seq<DateEntry>, j: nat, i: nat)
    requires id != "" && FindUser(users, id) == Some(UserFolder(id, dates))
    requires j < |dates| && WellNamed(dates) && dates[j].DateFolder?
    requires i < |dates[j].files|
    ensures Stat(users, {}, StoredPath(id, dates[j].name, dates[j].files[i].name)) == Some(dates[j].files[i].size)
  {
    FindDateByName(dates, j);
    assert DistinctFileNames(DateFiles(dates[j]));
    FindFileByName(dates[j].files, i);
  }

  /** With unique names and nothing removed meanwhile, the sizes of the
      first `k` entries' listed files add up to their bytes. */
  lemma {:induction false} DatesSizeIsBytes(users: seq<UserEntry>, id: string, dates: seq<DateEntry>, k: nat)
    requires id != "" && FindUser(users, id) == Some(UserFolder(id, dates))
    requires WellNamed(dates) && k <= |dates|
    ensures SizeOf(users, {}, DatesPaths(id, dates[..k])) == Bytes(DatesFiles(dates[..k]))
  {
    if k > 0 {
      var pre, e := dates[..k - 1], dates[k - 1];
      assert DatesPaths(id, dates[..k]) == DatesPaths(id, pre) + DatePaths(id, e) &&
             DatesFiles(dates[..k]) == DatesFiles(pre) + DateFiles(e) by {
        assert dates[..k][..k - 1] == pre && dates[..k][k - 1] == e;
      }
      DatesSizeIsBytes(users, id, dates, k - 1);
      SizeOfConcat(users, {}, DatesPaths(id, pre), DatePaths(id, e));
      BytesConcat(DatesFiles(pre), DateFiles(e));
      DateEntrySizeIsBytes(users, id, dates, k - 1);
    }
  }

  /** The listed files of one entry of a well-named user folder add up to
      the entry's bytes. */
  lemma DateEntrySizeIsBytes(users: seq<UserEntry>, id: string, dates: seq<DateEntry>, j: nat)
    requires id != "" && FindUser(users, id) == Some(UserFolder(id, dates))
    requires WellNamed(dates) && j < |dates|
    ensures SizeOf(users, {}, DatePaths(id, dates[j])) == Bytes(DateFiles(dates[j]))
  {
    var e := dates[j];
    if e.DateFolder? {
      DateSizeIsBytes(users, id, dates, j, |e.files|);
      assert DatePaths(id, e)[..|e.files|] == DatePaths(id, e);
      assert e.files[..|e.files|] == e.files;
    }
  }

  /** `getUserStorageSize` of a user whose folder holds uniquely named
      entries, none of which vanishes meanwhile, is the number of bytes of
      all the files in that folder. */
  lemma StorageSizeIsFolderBytes(users: seq<UserEntry>, userId: string)
    requires userId != ""
    requires var u := FindUser(users, SanitizeUserId(userId));
             u.Some? && u.value.UserFolder? && WellNamed(u.value.dates)
    ensures StorageSize(users, userId, {}) == Some(Bytes(UserFiles(FindUser(users, SanitizeUserId(userId)).value)))
  {
    var id := SanitizeUserId(userId);
    var dates := FindUser(users, id).value.dates;
    DatesSizeIsBytes(users, id, dates, |dates|);
    assert dates[..|dates|] == dates;
  }

  /** Files that vanish between the listing and the `stat` are skipped:
      the total never grows because of them. */
  lemma {:induction false} VanishedFilesSkipped(users: seq<UserEntry>, gone: set<StoredPath>, paths: seq<StoredPath>)
    ensures SizeOf(users, gone, paths) <= SizeOf(users, {}, paths)
  {
    if paths != [] {
      VanishedFilesSkipped(users, gone, paths[..|paths| - 1]);
    }
  }

  /** A user without a folder has no files and uses no space. */
  lemma UnknownUserIsEmpty(users: seq<UserEntry>, userId: string, gone: set<StoredPath>)
    requires userId != ""
    requires forall k :: 0 <= k < |users| ==> users[k].name != SanitizeUserId(userId)
    ensures ListedFiles(users, userId) == Some([])
    ensures StorageSize(users, userId, gone) == Some(0)
  {
    assert FindUser(users, SanitizeUserId(userId)) == None;
  }

  // ---------------------------------------------------------------------
  // The empty user id
  // ---------------------------------------------------------------------

  /** No two entries of the upload base share a name, and no two entries
      of one user folder do, as in any directory. */
  predicate BaseWellNamed(users: seq<UserEntry>)
  {
    && (forall a, b :: 0 <= a < b < |users| ==> users[a].name != users[b].name)
    && (forall k :: 0 <= k < |users| ==> DistinctDateNames(UserDates(users[k])))
  }

  /** What `stat` reports of each entry of a user folder, added up. */
  function EntrySizes(dates: seq<DateEntry>): nat
  {
    if dates == [] then 0 else EntrySizes(dates[..|dates| - 1]) + dates[|dates| - 1].size
  }

  /** The entry sizes of every user folder, user by user. */
  function BaseEntrySizes(users: seq<UserEntry>): nat
  {
    if users == [] then 0 else BaseEntrySizes(users[..|users| - 1]) + EntrySizes(UserDates(users[|users| - 1]))
  }

  /** Looking up a user entry by its own name finds it. */
  lemma {:induction false} FindUserByName(users: seq<UserEntry>, k: nat)
    requires k < |users| && forall a, b :: 0 <= a < b < |users| ==> users[a].name != users[b].name
    ensures FindUser(users, users[k].name) == Some(users[k])
  {
    if k > 0 {
      assert users[0].name != users[k].name;
      forall a, b | 0 <= a < b < |users| - 1 ensures users[1..][a].name != users[1..][b].name {
        assert users[1..][a] == users[a + 1] && users[1..][b] == users[b + 1];
      }
      FindUserByName(users[1..], k - 1);
      assert users[1..][k - 1] == users[k];
    }
  }

  /** `stat` of a path listed for the empty id reports the size of the
      user-folder entry it names. */
  lemma StatFindsEntry(users: seq<UserEntry>, k: nat, j: nat)
    requires BaseWellNamed(users) && k < |users| && j < |UserDates(users[k])|
    ensures Stat(users, {}, StoredPath("", users[k].name, UserDates(users[k])[j].name)) == Some(UserDates(users[k])[j].size)
  {
    FindUserByName(users, k);
    FindDateByName(UserDates(users[k]), j);
  }

  lemma {:induction false} UserEntrySizes(users: seq<UserEntry>, k: nat, j: nat)
    requires BaseWellNamed(users) && k < |users| && j <= |UserDates(users[k])|
    ensures SizeOf(users, {}, BaseEntryPaths(users[k])[..j]) == EntrySizes(UserDates(users[k])[..j])
  {
    if j > 0 {
      var ps, dates := BaseEntryPaths(users[k]), UserDates(users[k]);
      UserEntrySizes(users, k, j - 1);
      assert SizeOf(users, {}, ps[..j]) == SizeOf(users, {}, ps[..j - 1]) + Stat(users, {}, ps[j - 1]).GetOr(0) by {
        assert ps[..j][..j - 1] == ps[..j - 1];
      }
      assert EntrySizes(dates[..j]) == EntrySizes(dates[..j - 1]) + dates[j - 1].size by {
        assert dates[..j][..j - 1] == dates[..j - 1];
      }
      StatFindsEntry(users, k, j - 1);
    }
  }

  lemma {:induction false} BaseSizes(users: seq<UserEntry>, k: nat)
    requires BaseWellNamed(users) && k <= |users|
    ensures SizeOf(users, {}, BasePaths(users[..k])) == BaseEntrySizes(users[..k])
  {
    if k > 0 {
      var pre, u := users[..k - 1], users[k - 1];
      assert BasePaths(users[..k]) == BasePaths(pre) + BaseEntryPaths(u) &&
             BaseEntrySizes(users[..k]) == BaseEntrySizes(pre) + EntrySizes(UserDates(u)) by {
        assert users[..k][..k - 1] == pre && users[..k][k - 1] == u;
      }
      BaseSizes(users, k - 1);
      SizeOfConcat(users, {}, BasePaths(pre), BaseEntryPaths(u));
      UserEntrySize(users, k - 1);
    }
  }

  /** The paths listed for one user folder under the empty id add up to
      the sizes of its entries. */
  lemma UserEntrySize(users: seq<UserEntry>, k: nat)
    requires BaseWellNamed(users) && k < |users|
    ensures SizeOf(users, {}, BaseEntryPaths(users[k])) == EntrySizes(UserDates(users[k]))
  {
    var n := |UserDates(users[k])|;
    UserEntrySizes(users, k, n);
    assert BaseEntryPaths(users[k])[..n] == BaseEntryPaths(users[k]);
    assert UserDates(users[k])[..n] == UserDates(users[k]);
  }

  /** An empty id sanitises to the empty name, so `listUserFiles("")`
      reads the upload base as that user's folder: it lists every entry of
      every user folder, and `getUserStorageSize("")` adds up what `stat`
      reports of those entries. */
  lemma EmptyIdListsBase(users: seq<UserEntry>)
    requires BaseWellNamed(users)
    ensures ListedFiles(users, "") == Some(BasePaths(users))
    ensures StorageSize(users, "", {}) == Some(BaseEntrySizes(users))
  {
    assert SanitizeUserId("") == "";
    BaseSizes(users, |users|);
    assert users[..|users|] == users;
  }

  /** One user, "alice", with one date folder of directory size 4096
      holding one workbook of 10 bytes. */
  const OneWorkbook: seq<UserEntry> :=
    [UserFolder("alice", [DateFolder("2026-10-18", [FileInfo("a.xlsx", 10, 0)], 4096)])]

  /** That store seen through the empty id: the listing names the user's
      date folder instead of the workbook, and the size is that folder's
      own. */
  lemma EmptyIdReadsOtherUsers()
    ensures ListedFiles(OneWorkbook, "") == Some([StoredPath("", "alice", "2026-10-18")])
    ensures StorageSize(OneWorkbook, "", {}) == Some(4096)
  {
    var p := StoredPath("", "alice", "2026-10-18");
    assert SanitizeUserId("") == "";
    OneWorkbookBasePaths();
    OneWorkbookFolderSize();
    assert SizeOf(OneWorkbook, {}, [p]) == 4096 by {
      assert [p][..0] == [];
    }
  }

  lemma OneWorkbookBasePaths()
    ensures BasePaths(OneWorkbook) == [StoredPath("", "alice", "2026-10-18")]
  {
    assert OneWorkbook[..0] == [];
  }

  lemma OneWorkbookFolderSize()
    ensures Stat(OneWorkbook, {}, StoredPath("", "alice", "2026-10-18")) == Some(4096)
  {
    var dates := OneWorkbook[0].dates;
    assert FindUser(OneWorkbook, "alice") == Some(OneWorkbook[0]);
    assert FindDate(dates, "2026-10-18") == Some(dates[0]);
  }
}
