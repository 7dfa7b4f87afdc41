/** The names the server's file store gives to what it writes:
    `uploads/processed/{user}/{YYYY-MM-DD}/{timestamp}_{name}{ext}`. */
module StorageNames {
  import opened Text
  import ExportExcel

  /** `[a-z0-9_-]` under the `i` flag. */
  predicate IsUserIdChar(c: char)
  {
    IsAsciiAlnum(c) || c == '_' || c == '-'
  }

  /** `sanitizeUserId`: every character outside `[A-Za-z0-9_-]` becomes
      `_`; the others are kept where they are. */
  function SanitizeUserId(userId: string): (s: string)
    ensures |s| == |userId|
    ensures forall i :: 0 <= i < |userId| ==> s[i] == (if IsUserIdChar(userId[i]) then userId[i] else '_')
  {
    ReplaceOutside(userId, IsUserIdChar, '_')
  }

  /** A sanitised id is a safe folder name: no `/`, no `.`, no `|`. */
  lemma SanitizedUserIdAlphabet(userId: string)
    ensures forall i :: 0 <= i < |userId| ==> IsUserIdChar(SanitizeUserId(userId)[i])
  {
    var s := SanitizeUserId(userId);
    forall i | 0 <= i < |userId|
      ensures IsUserIdChar(s[i])
    {
    }
  }

  /** Sanitising twice is sanitising once. */
  lemma SanitizeUserIdIdempotent(userId: string)
    ensures SanitizeUserId(SanitizeUserId(userId)) == SanitizeUserId(userId)
  {
    ReplaceOutsideIdempotent(userId, IsUserIdChar, '_');
  }

  /** An id is left as it is exactly when it only holds `[A-Za-z0-9_-]`. */
  lemma SanitizeUserIdFixedPoint(userId: string)
    ensures SanitizeUserId(userId) == userId <==> forall i :: 0 <= i < |userId| ==> IsUserIdChar(userId[i])
  {
    ReplaceOutsideFixedPoint(userId, IsUserIdChar, '_');
  }

  /** An id made of two clean parts around one foreign separator keeps
      both parts and gets `_` in between. */
  lemma SanitizeSeparator(a: string, sep: char, b: string)
    requires forall i :: 0 <= i < |a| ==> IsUserIdChar(a[i])
    requires forall i :: 0 <= i < |b| ==> IsUserIdChar(b[i])
    requires !IsUserIdChar(sep)
    ensures SanitizeUserId(a + [sep] + b) == a + "_" + b
  {
    var s := SanitizeUserId(a + [sep] + b);
    forall i | 0 <= i < |s|
      ensures s[i] == (a + "_" + b)[i]
    {
      if i > |a| {
        assert (a + [sep] + b)[i] == b[i - |a| - 1];
      }
    }
  }

  /** An Auth0 subject: the `|` separator becomes `_`. */
  lemma SanitizeAuth0Subject()
    ensures SanitizeUserId("auth0|abc") == "auth0_abc"
  {
    assert "auth0|abc" == "auth0" + ['|'] + "abc";
    assert "auth0_abc" == "auth0" + "_" + "abc";
    SanitizeSeparator("auth0", '|', "abc");
  }

  /** `getDateFolder` for the date `year`, `month` (as `getMonth()`, from
      0) and `day` (as `getDate()`): `${year}-${MM}-${DD}` where the month
      is shifted to start at 1 and month and day are zero-padded to two
      digits. The year is printed as `String` prints it. */
  function GetDateFolder(year: int, month: int, day: int): (r: string)
    requires 0 <= month < 12 && 1 <= day <= 31
    ensures |r| >= 6
    ensures r[..|r| - 6] == IntToString(year)
    ensures r[|r| - 6] == '-' && r[|r| - 3] == '-'
    ensures AllDigits(r[|r| - 5..|r| - 3]) && ParseDigits(r[|r| - 5..|r| - 3]) == month + 1
    ensures AllDigits(r[|r| - 2..]) && ParseDigits(r[|r| - 2..]) == day
  {
    var mm := PadStart(NatToString(month + 1), 2, '0');
    var dd := PadStart(NatToString(day), 2, '0');
    TwoDigits(month + 1);
    TwoDigits(day);
    DashedFieldsAt(IntToString(year), mm, dd);
    IntToString(year) + "-" + mm + "-" + dd
  }

  /** Where the fields of `y-mm-dd` sit when `mm` and `dd` have two
      characters each. */
  lemma DashedFieldsAt(y: string, mm: string, dd: string)
    requires |mm| == 2 && |dd| == 2
    ensures var r := y + "-" + mm + "-" + dd;
            |r| == |y| + 6 && r[..|r| - 6] == y && r[|r| - 6] == '-' && r[|r| - 3] == '-' &&
            r[|r| - 5..|r| - 3] == mm && r[|r| - 2..] == dd
  {
  }

  /** `String` of an integer names it: different integers print
      differently. */
  lemma IntToStringInjective(a: int, b: int)
    requires IntToString(a) == IntToString(b)
    ensures a == b
  {
    var s := IntToString(a);
    if a >= 0 && b >= 0 {
      assert ParseDigits(NatToString(a)) == ParseDigits(NatToString(b));
    } else if a < 0 && b < 0 {
      assert NatToString(-a) == s[1..] == NatToString(-b);
      assert ParseDigits(NatToString(-a)) == ParseDigits(NatToString(-b));
    }
  }

  /** Different days get different folders. */
  lemma DateFolderInjective(y1: int, m1: int, d1: int, y2: int, m2: int, d2: int)
    requires 0 <= m1 < 12 && 1 <= d1 <= 31
    requires 0 <= m2 < 12 && 1 <= d2 <= 31
    requires GetDateFolder(y1, m1, d1) == GetDateFolder(y2, m2, d2)
    ensures y1 == y2 && m1 == m2 && d1 == d2
  {
    var r := GetDateFolder(y1, m1, d1);
    var n := |r|;
    assert IntToString(y1) == r[..n - 6] == IntToString(y2);
    IntToStringInjective(y1, y2);
    assert ParseDigits(r[n - 5..n - 3]) == m1 + 1 == m2 + 1;
    assert ParseDigits(r[n - 2..]) == d1 == d2;
  }

  /** `generateFileName`: `${timestamp}_${baseName}${ext}`, where the clock
      reading `timestamp` and the split of the original name into
      `baseName` and `ext` are given, and the base name goes through the
      same `/[^a-z0-9]/gi` replacement as the client's file names. The
      timestamp can be read back as the leading digits of the name, the
      sanitised base name follows the underscore, and the extension is kept
      as it was. */
  function GenerateFileName(timestamp: nat, baseName: string, ext: string): (name: string)
    ensures |name| == |NatToString(timestamp)| + 1 + |baseName| + |ext|
    ensures LeadingDigits(name) == NatToString(timestamp)
    ensures ParseDigits(LeadingDigits(name)) == timestamp
    ensures name[|NatToString(timestamp)|] == '_'
    ensures name[|NatToString(timestamp)| + 1..|name| - |ext|] == ExportExcel.SanitizeFileName(baseName)
    ensures name[|name| - |ext|..] == ext
  {
    var stamp := NatToString(timestamp);
    StampedNameFields(stamp, ExportExcel.SanitizeFileName(baseName), ext);
    stamp + "_" + ExportExcel.SanitizeFileName(baseName) + ext
  }

  /** Where the fields of `stamp_base` + `ext` sit when the stamp is all
      digits. */
  lemma StampedNameFields(stamp: string, base: string, ext: string)
    requires AllDigits(stamp)
    ensures var name := stamp + "_" + base + ext;
            |name| == |stamp| + 1 + |base| + |ext| && LeadingDigits(name) == stamp &&
            name[|stamp|] == '_' && name[|stamp| + 1..|name| - |ext|] == base &&
            name[|name| - |ext|..] == ext
  {
    assert stamp + "_" + base + ext == stamp + ("_" + base + ext);
    LeadingDigitsConcat(stamp, "_" + base + ext);
  }

  /** Files saved at different instants get different names, whatever the
      original names were. */
  lemma GeneratedNamesDiffer(t1: nat, b1: string, e1: string, t2: nat, b2: string, e2: string)
    requires t1 != t2
    ensures GenerateFileName(t1, b1, e1) != GenerateFileName(t2, b2, e2)
  {
    assert ParseDigits(LeadingDigits(GenerateFileName(t1, b1, e1))) == t1;
  }
}
