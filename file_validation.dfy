/** The upload validator of the web client: a file is accepted when it
    looks like an Excel workbook (by extension or by MIME type) and is not
    larger than the size bound, checked in that order. */
module FileValidation {
  import opened Text

  /** What the validator sees of a browser `File`. */
  datatype File = File(name: string, mimeType: string, size: nat)

  /** `MAX_FILE_SIZE`: 1 * 1024 * 1024 bytes. */
  const MaxFileSize: nat := 1 * 1024 * 1024

  /** `ALLOWED_MIME_TYPES`: the .xlsx and the .xls MIME types. */
  const AllowedMimeTypes: seq<string> :=
    ["application/vnd.openxmlformats-officedocument.spreadsheetml.sheet", "application/vnd.ms-excel"]

  const TypeError := "Por favor, selecione um arquivo Excel (.xlsx ou .xls)"

  /** The size message names 10MB although the bound is 1 MiB; the text is
      kept as the client shows it. */
  const SizeError := "O arquivo não pode ter mais de 10MB"

  /** `s` ends with the lower-case `suffix`, ignoring the case of ASCII
      letters. */
  predicate EndsWithIgnoreCase(s: string, suffix: string)
  {
    |s| >= |suffix| && LowerAsciiString(s[|s| - |suffix|..]) == suffix
  }

  /** `/\.(xlsx|xls)$/i.test(name)`: the match is anchored at the end of the
      name, and the `i` flag folds only ASCII letters onto each other. */
  predicate HasExcelExtension(name: string)
  {
    EndsWithIgnoreCase(name, ".xlsx") || EndsWithIgnoreCase(name, ".xls")
  }

  /** `isValidExcelFile`: a workbook extension or an allowed MIME type. */
  function IsValidExcelFile(f: File): (ok: bool)
    ensures HasExcelExtension(f.name) ==> ok
    ensures f.mimeType in AllowedMimeTypes ==> ok
    ensures !HasExcelExtension(f.name) ==> (ok <==> f.mimeType in AllowedMimeTypes)
  {
    HasExcelExtension(f.name) || f.mimeType in AllowedMimeTypes
  }

  /** `isValidFileSize`: at most `MaxFileSize` bytes, the bound included. */
  function IsValidFileSize(f: File): (ok: bool)
    ensures ok <==> f.size <= 1048576
  {
    f.size <= MaxFileSize
  }

  datatype Verdict = Accepted | Rejected(error: string)

  /** `validateFile`: the type is checked first, then the size. */
  function ValidateFile(f: File): (v: Verdict)
    ensures v == Accepted <==> IsValidExcelFile(f) && IsValidFileSize(f)
    ensures v.Rejected? ==> v.error == TypeError || v.error == SizeError
    ensures v == Rejected(TypeError) <==> !IsValidExcelFile(f)
    ensures v == Rejected(SizeError) <==> IsValidExcelFile(f) && !IsValidFileSize(f)
  {
    if !IsValidExcelFile(f) then Rejected(TypeError)
    else if !IsValidFileSize(f) then Rejected(SizeError)
    else Accepted
  }

  // ---------------------------------------------------------------------
  // Properties
  // ---------------------------------------------------------------------

  /** A file of the wrong type is reported as such, however large it is. */
  lemma TypeCheckedBeforeSize(f: File)
    requires !IsValidExcelFile(f)
    ensures ValidateFile(f) == Rejected(TypeError)
  {
  }

  /** A name ending in anything other than an `s` or an `x` (of either case)
      has no workbook extension, whatever it contains earlier
      ("a.xlsx.txt", say). */
  lemma ExtensionAnchoredAtEnd(name: string)
    requires name != [] && LowerAscii(name[|name| - 1]) != 's' && LowerAscii(name[|name| - 1]) != 'x'
    ensures !HasExcelExtension(name)
  {
    assert |name| >= 5 ==> LowerAsciiString(name[|name| - 5..])[4] == LowerAscii(name[|name| - 1]);
    assert |name| >= 4 ==> LowerAsciiString(name[|name| - 4..])[3] == LowerAscii(name[|name| - 1]);
  }

  /** "a.xlsx.txt" with a MIME type that is not listed is refused. */
  lemma DoubleExtensionRefused(mimeType: string)
    requires mimeType !in AllowedMimeTypes
    ensures !IsValidExcelFile(File("a.xlsx.txt", mimeType, 0))
  {
    ExtensionAnchoredAtEnd("a.xlsx.txt");
  }

  /** Only the case of ASCII letters is ignored: two names that agree after
      folding them get the same answer. */
  lemma ExtensionIgnoresCase(a: string, b: string)
    requires LowerAsciiString(a) == LowerAsciiString(b)
    ensures HasExcelExtension(a) == HasExcelExtension(b)
  {
    assert |a| == |b|;
    if |a| >= 4 {
      LowerSuffix(a, |a| - 4);
      LowerSuffix(b, |b| - 4);
    }
    if |a| >= 5 {
      LowerSuffix(a, |a| - 5);
      LowerSuffix(b, |b| - 5);
    }
  }

  /** Folding a suffix is the suffix of the folded string. */
  lemma LowerSuffix(s: string, k: nat)
    requires k <= |s|
    ensures LowerAsciiString(s[k..]) == LowerAsciiString(s)[k..]
  {
  }

  /** Any name ending in ".xlsx" or ".xls", in any mix of cases, is a
      workbook name. */
  lemma ExcelSuffixAccepted(base: string, ext: string)
    requires LowerAsciiString(ext) == ".xlsx" || LowerAsciiString(ext) == ".xls"
    ensures HasExcelExtension(base + ext)
  {
    assert (base + ext)[|base + ext| - |ext|..] == ext;
  }

  /** The size bound is exactly 1 MiB: 1048576 bytes pass, one more fails. */
  lemma SizeBoundIsOneMebibyte(name: string, mimeType: string)
    ensures IsValidFileSize(File(name, mimeType, 1048576))
    ensures !IsValidFileSize(File(name, mimeType, 1048577))
  {
  }
}
