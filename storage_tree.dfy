/** The server's store of processed workbooks as a value: user folders
    holding date folders holding files, each level in directory-listing
    order, and what an age-based cleanup leaves of it. */
module StorageTree {
  import opened StorageFiles

  /** An entry of a user folder: a date folder, or anything that is not a
      directory. `size` is what `stat` reports of the entry itself (for a
      folder, the size of the directory, not of its files). */
  datatype DateEntry =
    | DateFolder(name: string, files: seq<FileInfo>, size: nat)
    | DateOther(name: string, size: nat)

  /** An entry of the upload base: a user folder, or anything that is not a
      directory. */
  datatype UserEntry = UserFolder(name: string, dates: seq<DateEntry>) | UserOther(name: string)

  // ---------------------------------------------------------------------
  // Cleanup, level by level
  // ---------------------------------------------------------------------

  /** A date folder after cleanup: gone when no file is left in it; any
      other entry is skipped and stays. */
  function CleanDate(e: DateEntry, now: int, maxAge: int): seq<DateEntry>
  {
    match e
    case DateOther(_, _) => [e]
    case DateFolder(name, files, size) =>
      var k := Kept(files, now, maxAge);
      if k == [] then [] else [DateFolder(name, k, size)]
  }

  function DateTally(e: DateEntry, now: int, maxAge: int): Tally
  {
    match e
    case DateOther(_, _) => Tally(0, 0)
    case DateFolder(_, files, _) => FilesTally(files, now, maxAge)
  }

  /** No date folder is empty and no file in one has expired. */
  predicate TidyDate(e: DateEntry, now: int, maxAge: int)
  {
    e.DateFolder? ==> e.files != [] && AllFresh(e.files, now, maxAge)
  }

  predicate TidyDates(dates: seq<DateEntry>, now: int, maxAge: int)
  {
    forall j :: 0 <= j < |dates| ==> TidyDate(dates[j], now, maxAge)
  }

  /** The entries of a user folder after cleanup. */
  function CleanDates(dates: seq<DateEntry>, now: int, maxAge: int): seq<DateEntry>
  {
    if dates == [] then []
    else CleanDates(dates[..|dates| - 1], now, maxAge) + CleanDate(dates[|dates| - 1], now, maxAge)
  }

  function DatesTally(dates: seq<DateEntry>, now: int, maxAge: int): Tally
  {
    if dates == [] then Tally(0, 0)
    else DatesTally(dates[..|dates| - 1], now, maxAge).Plus(DateTally(dates[|dates| - 1], now, maxAge))
  }

  /** A user folder after cleanup: gone when nothing at all is left in it;
      any other entry is skipped and stays. */
  function CleanUser(u: UserEntry, now: int, maxAge: int): seq<UserEntry>
  {
    match u
    case UserOther(_) => [u]
    case UserFolder(name, dates) =>
      var r := CleanDates(dates, now, maxAge);
      if r == [] then [] else [UserFolder(name, r)]
  }

  function UserTally(u: UserEntry, now: int, maxAge: int): Tally
  {
    match u
    case UserOther(_) => Tally(0, 0)
    case UserFolder(_, dates) => DatesTally(dates, now, maxAge)
  }

  /** No user folder is empty and every date folder in one is tidy. */
  predicate TidyUser(u: UserEntry, now: int, maxAge: int)
  {
    u.UserFolder? ==> u.dates != [] && TidyDates(u.dates, now, maxAge)
  }

  predicate Tidy(users: seq<UserEntry>, now: int, maxAge: int)
  {
    forall k :: 0 <= k < |users| ==> TidyUser(users[k], now, maxAge)
  }

  /** The upload base after cleanup. */
  function CleanUsers(users: seq<UserEntry>, now: int, maxAge: int): seq<UserEntry>
  {
    if users == [] then []
    else CleanUsers(users[..|users| - 1], now, maxAge) + CleanUser(users[|users| - 1], now, maxAge)
  }

  function UsersTally(users: seq<UserEntry>, now: int, maxAge: int): Tally
  {
    if users == [] then Tally(0, 0)
    else UsersTally(users[..|users| - 1], now, maxAge).Plus(UserTally(users[|users| - 1], now, maxAge))
  }

  // ---------------------------------------------------------------------
  // Every stored file, in listing order
  // ---------------------------------------------------------------------

  function DateFiles(e: DateEntry): seq<FileInfo>
  {
    if e.DateFolder? then e.files else []
  }

  function DatesFiles(dates: seq<DateEntry>): seq<FileInfo>
  {
    if dates == [] then [] else DatesFiles(dates[..|dates| - 1]) + DateFiles(dates[|dates| - 1])
  }

  function UserFiles(u: UserEntry): seq<FileInfo>
  {
    if u.UserFolder? then DatesFiles(u.dates) else []
  }

  /** Every file under the upload base, user by user and date by date. */
  function AllFiles(users: seq<UserEntry>): seq<FileInfo>
  {
    if users == [] then [] else AllFiles(users[..|users| - 1]) + UserFiles(users[|users| - 1])
  }

  // ---------------------------------------------------------------------
  // Properties
  // ---------------------------------------------------------------------

  /** After cleaning a user folder, no date folder in it is empty and no
      file in one has expired. */
  lemma {:induction false} CleanDatesTidy(dates: seq<DateEntry>, now: int, maxAge: int)
    ensures TidyDates(CleanDates(dates, now, maxAge), now, maxAge)
  {
    if dates != [] {
      var pre := dates[..|dates| - 1];
      CleanDatesTidy(pre, now, maxAge);
      var c := CleanDates(pre, now, maxAge);
      var d := CleanDate(dates[|dates| - 1], now, maxAge);
      assert forall j :: 0 <= j < |d| ==> TidyDate(d[j], now, maxAge);
      assert forall j :: 0 <= j < |c + d| ==> (c + d)[j] == if j < |c| then c[j] else d[j - |c|];
    }
  }

  /** After a cleanup no expired file, no empty date folder and no empty
      user folder is left. */
  lemma {:induction false} CleanUsersTidy(users: seq<UserEntry>, now: int, maxAge: int)
    ensures Tidy(CleanUsers(users, now, maxAge), now, maxAge)
  {
    if users != [] {
      var pre := users[..|users| - 1];
      var last := users[|users| - 1];
      CleanUsersTidy(pre, now, maxAge);
      if last.UserFolder? {
        CleanDatesTidy(last.dates, now, maxAge);
      }
      var c := CleanUsers(pre, now, maxAge);
      var d := CleanUser(last, now, maxAge);
      assert forall k :: 0 <= k < |d| ==> TidyUser(d[k], now, maxAge);
      assert forall k :: 0 <= k < |c + d| ==> (c + d)[k] == if k < |c| then c[k] else d[k - |c|];
    }
  }

  /** Cleaning a user folder keeps, in order, exactly its fresh files. */
  lemma {:induction false} CleanDatesKeepsFresh(dates: seq<DateEntry>, now: int, maxAge: int)
    ensures DatesFiles(CleanDates(dates, now, maxAge)) == Kept(DatesFiles(dates), now, maxAge)
  {
    if dates != [] {
      var pre := dates[..|dates| - 1];
      var last := dates[|dates| - 1];
      CleanDatesKeepsFresh(pre, now, maxAge);
      var c := CleanDates(pre, now, maxAge);
      var d := CleanDate(last, now, maxAge);
      assert CleanDates(dates, now, maxAge) == c + d;
      assert DatesFiles(dates) == DatesFiles(pre) + DateFiles(last);
      KeptConcat(DatesFiles(pre), DateFiles(last), now, maxAge);
      assert DatesFiles(c + d) == DatesFiles(c) + Kept(DateFiles(last), now, maxAge) by {
        if d == [] {
          assert c + d == c;
          assert Kept(DateFiles(last), now, maxAge) == [];
        } else {
          assert (c + d)[..|c + d| - 1] == c;
          assert DatesFiles(c + d) == DatesFiles(c) + DateFiles(d[0]);
        }
      }
    }
  }

  /** Cleaning a user folder counts and frees exactly its expired files. */
  lemma {:induction false} CleanDatesTally(dates: seq<DateEntry>, now: int, maxAge: int)
    ensures DatesTally(dates, now, maxAge) == FilesTally(DatesFiles(dates), now, maxAge)
  {
    if dates != [] {
      var pre := dates[..|dates| - 1];
      var last := dates[|dates| - 1];
      CleanDatesTally(pre, now, maxAge);
      FilesTallyConcat(DatesFiles(pre), DateFiles(last), now, maxAge);
      assert DateTally(last, now, maxAge) == FilesTally(DateFiles(last), now, maxAge);
    }
  }

  /** Cleaning the upload base keeps, in order, exactly the fresh files. */
  lemma {:induction false} CleanUsersKeepsFresh(users: seq<UserEntry>, now: int, maxAge: int)
    ensures AllFiles(CleanUsers(users, now, maxAge)) == Kept(AllFiles(users), now, maxAge)
  {
    if users != [] {
      var pre := users[..|users| - 1];
      var last := users[|users| - 1];
      CleanUsersKeepsFresh(pre, now, maxAge);
      var c := CleanUsers(pre, now, maxAge);
      var d := CleanUser(last, now, maxAge);
      assert CleanUsers(users, now, maxAge) == c + d;
      assert AllFiles(users) == AllFiles(pre) + UserFiles(last);
      KeptConcat(AllFiles(pre), UserFiles(last), now, maxAge);
      if last.UserFolder? {
        CleanDatesKeepsFresh(last.dates, now, maxAge);
      }
      assert AllFiles(c + d) == AllFiles(c) + Kept(UserFiles(last), now, maxAge) by {
        if d == [] {
          assert c + d == c;
          assert Kept(UserFiles(last), now, maxAge) == [];
        } else {
          assert (c + d)[..|c + d| - 1] == c;
          assert AllFiles(c + d) == AllFiles(c) + UserFiles(d[0]);
        }
      }
    }
  }

  /** Cleaning the upload base counts and frees exactly the expired files. */
  lemma {:induction false} CleanUsersTally(users: seq<UserEntry>, now: int, maxAge: int)
    ensures UsersTally(users, now, maxAge) == FilesTally(AllFiles(users), now, maxAge)
  {
    if users != [] {
      var pre := users[..|users| - 1];
      var last := users[|users| - 1];
      CleanUsersTally(pre, now, maxAge);
      FilesTallyConcat(AllFiles(pre), UserFiles(last), now, maxAge);
      if last.UserFolder? {
        CleanDatesTally(last.dates, now, maxAge);
      }
      assert UserTally(last, now, maxAge) == FilesTally(UserFiles(last), now, maxAge);
    }
  }

  /** The counters of a cleanup balance the store: the files and bytes left
      plus those reported equal the files and bytes there were. */
  lemma CleanupConserves(users: seq<UserEntry>, now: int, maxAge: int)
    ensures var t := UsersTally(users, now, maxAge);
            var after := AllFiles(CleanUsers(users, now, maxAge));
            |after| + t.deletedFiles == |AllFiles(users)| && Bytes(after) + t.freedSpace == Bytes(AllFiles(users))
  {
    CleanUsersKeepsFresh(users, now, maxAge);
    CleanUsersTally(users, now, maxAge);
    KeptRemovedPartition(AllFiles(users), now, maxAge);
  }

  /** A tidy user folder is left as it is, and nothing in it is reported. */
  lemma {:induction false} TidyDatesKept(dates: seq<DateEntry>, now: int, maxAge: int)
    requires TidyDates(dates, now, maxAge)
    ensures CleanDates(dates, now, maxAge) == dates
    ensures DatesTally(dates, now, maxAge) == Tally(0, 0)
  {
    if dates != [] {
      var pre := dates[..|dates| - 1];
      var last := dates[|dates| - 1];
      assert TidyDates(pre, now, maxAge) by {
        forall j | 0 <= j < |pre| ensures TidyDate(pre[j], now, maxAge) {
          assert pre[j] == dates[j];
        }
      }
      TidyDatesKept(pre, now, maxAge);
      assert TidyDate(last, now, maxAge);
      assert CleanDate(last, now, maxAge) == [last] && DateTally(last, now, maxAge) == Tally(0, 0) by {
        if last.DateFolder? {
          FreshFilesKept(last.files, now, maxAge);
        }
      }
      assert dates == pre + [last];
    }
  }

  /** A tidy upload base is left as it is, and nothing is reported. */
  lemma {:induction false} TidyUsersKept(users: seq<UserEntry>, now: int, maxAge: int)
    requires Tidy(users, now, maxAge)
    ensures CleanUsers(users, now, maxAge) == users
    ensures UsersTally(users, now, maxAge) == Tally(0, 0)
  {
    if users != [] {
      var pre := users[..|users| - 1];
      var last := users[|users| - 1];
      assert Tidy(pre, now, maxAge) by {
        forall k | 0 <= k < |pre| ensures TidyUser(pre[k], now, maxAge) {
          assert pre[k] == users[k];
        }
      }
      TidyUsersKept(pre, now, maxAge);
      assert TidyUser(last, now, maxAge);
      assert CleanUser(last, now, maxAge) == [last] && UserTally(last, now, maxAge) == Tally(0, 0) by {
        if last.UserFolder? {
          TidyDatesKept(last.dates, now, maxAge);
        }
      }
      LastSplit(users);
    }
  }

  /** One more entry of a user folder, cleaned on its own. */
  lemma CleanDatesStep(dates: seq<DateEntry>, j: nat, now: int, maxAge: int)
    requires j < |dates|
    ensures CleanDates(dates[..j + 1], now, maxAge) == CleanDates(dates[..j], now, maxAge) + CleanDate(dates[j], now, maxAge)
    ensures DatesTally(dates[..j + 1], now, maxAge) == DatesTally(dates[..j], now, maxAge).Plus(DateTally(dates[j], now, maxAge))
  {
    assert dates[..j + 1][..j] == dates[..j];
  }

  /** One more entry of the upload base, cleaned on its own. */
  lemma CleanUsersStep(users: seq<UserEntry>, i: nat, now: int, maxAge: int)
    requires i < |users|
    ensures CleanUsers(users[..i + 1], now, maxAge) == CleanUsers(users[..i], now, maxAge) + CleanUser(users[i], now, maxAge)
    ensures UsersTally(users[..i + 1], now, maxAge) == UsersTally(users[..i], now, maxAge).Plus(UserTally(users[i], now, maxAge))
  {
    assert users[..i + 1][..i] == users[..i];
  }

  /** A non-empty listing is its prefix followed by its last entry. */
  lemma LastSplit<T>(s: seq<T>)
    requires s != []
    ensures s == s[..|s| - 1] + [s[|s| - 1]]
  {
  }

  /** Running the cleanup a second time with the same clock and limit
      changes nothing and reports nothing. */
  lemma CleanupIdempotent(users: seq<UserEntry>, now: int, maxAge: int)
    ensures CleanUsers(CleanUsers(users, now, maxAge), now, maxAge) == CleanUsers(users, now, maxAge)
    ensures UsersTally(CleanUsers(users, now, maxAge), now, maxAge) == Tally(0, 0)
  {
    CleanUsersTidy(users, now, maxAge);
    TidyUsersKept(CleanUsers(users, now, maxAge), now, maxAge);
  }

  /** The names of the non-directory entries of a user folder, in order. */
  function DateOthers(dates: seq<DateEntry>): seq<string>
  {
    if dates == [] then []
    else DateOthers(dates[..|dates| - 1]) + (if dates[|dates| - 1].DateOther? then [dates[|dates| - 1].name] else [])
  }

  /** The names of the non-directory entries of the upload base, in order. */
  function UserOthers(users: seq<UserEntry>): seq<string>
  {
    if users == [] then []
    else UserOthers(users[..|users| - 1]) + (if users[|users| - 1].UserOther? then [users[|users| - 1].name] else [])
  }

  /** Non-directory entries of a user folder are never removed, and a user
      folder holding one is never removed either. */
  lemma {:induction false} DateOthersKept(dates: seq<DateEntry>, now: int, maxAge: int)
    ensures DateOthers(CleanDates(dates, now, maxAge)) == DateOthers(dates)
    ensures DateOthers(dates) != [] ==> CleanDates(dates, now, maxAge) != []
  {
    if dates != [] {
      var pre := dates[..|dates| - 1];
      var last := dates[|dates| - 1];
      DateOthersKept(pre, now, maxAge);
      var c := CleanDates(pre, now, maxAge);
      var d := CleanDate(last, now, maxAge);
      if d == [] {
        assert c + d == c;
      } else {
        assert (c + d)[..|c + d| - 1] == c;
      }
    }
  }

  /** Non-directory entries of the upload base are never removed. */
  lemma {:induction false} UserOthersKept(users: seq<UserEntry>, now: int, maxAge: int)
    ensures UserOthers(CleanUsers(users, now, maxAge)) == UserOthers(users)
  {
    if users != [] {
      var pre := users[..|users| - 1];
      var last := users[|users| - 1];
      UserOthersKept(pre, now, maxAge);
      var c := CleanUsers(pre, now, maxAge);
      var d := CleanUser(last, now, maxAge);
      if d == [] {
        assert c + d == c;
      } else {
        assert (c + d)[..|c + d| - 1] == c;
      }
    }
  }

}
