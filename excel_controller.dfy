/** The request handlers of the server's spreadsheet API with HTTP and the
    database abstracted away: the guard clauses and the processing of an
    upload, the paging arithmetic of the history, and the name of an
    exported workbook. */
module ExcelController {
  import opened Wrappers
  import opened Text
  import opened ExcelRows
  import opened ExcelValidator
  import opened CoordinateGrouper
  import StorageNames
  import ExportExcel
  import SheetExport
  import FileValidation

  // ---------------------------------------------------------------------
  // processExcel
  // ---------------------------------------------------------------------

  const NoFileMessage := "Nenhum arquivo foi enviado"
  const UnauthenticatedMessage := "Usuário não autenticado"
  const ProcessErrorMessage := "Erro ao processar arquivo"
  const DefaultRouteName := "Rota Padrão"

  /** An uploaded file: its original name and the rows of its first sheet
      as the spreadsheet reader delivers them, or `None` when the reader
      throws on its contents. */
  datatype UploadedFile = UploadedFile(originalName: string, sheet: Option<seq<RawRow>>)

  /** What the handler reads from a request: the upload, the user id the
      authentication middleware attached and the `routeName` of the body
      (`None` when absent). */
  datatype ProcessRequest = ProcessRequest(file: Option<UploadedFile>, userId: Option<string>, routeName: Option<string>)

  /** The fields of the record the handler hands to the database. */
  datatype ProcessedRecord = ProcessedRecord(
    userId: string,
    routeName: string,
    originalFileName: string,
    totalRows: nat,
    groupedRows: nat,
    data: seq<GroupedData>)

  /** An error status with its message, or success with the record. */
  datatype Response = Failure(status: nat, message: string) | Success(record: ProcessedRecord)

  /** `!userId` is false: the id is present and not empty. */
  predicate Authenticated(userId: Option<string>)
  {
    userId.Some? && userId.value != ""
  }

  /** `processExcel`, where `saveFails` says whether the database rejects
      the record. The guards run in order: no file (400), no user (401),
      an unreadable sheet (500), a failed validation (400 with the
      validator's message); only then are the rows grouped and saved. */
  function ProcessExcel(req: ProcessRequest, saveFails: bool): (r: Response)
    ensures req.file.None? ==> r == Failure(400, NoFileMessage)
    ensures req.file.Some? && !Authenticated(req.userId) ==> r == Failure(401, UnauthenticatedMessage)
    ensures req.file.Some? && Authenticated(req.userId) && req.file.value.sheet.None? ==>
              r == Failure(500, ProcessErrorMessage)
    ensures req.file.Some? && Authenticated(req.userId) && req.file.value.sheet.Some? ==>
              var rows := ReadExcelRows(req.file.value.sheet.value);
              match DataValidation(rows)
              case Invalid(message) => r == Failure(400, message)
              case Valid => r.Success? <==> !saveFails
    ensures r.Success? ==>
              req.file.Some? && Authenticated(req.userId) && req.file.value.sheet.Some? &&
              var rows := ReadExcelRows(req.file.value.sheet.value);
              DataValidation(rows) == Valid &&
              r.record.userId == req.userId.value &&
              r.record.routeName == req.routeName.GetOr(DefaultRouteName) &&
              r.record.originalFileName == req.file.value.originalName &&
              r.record.totalRows == |req.file.value.sheet.value| &&
              r.record.data == Grouped(rows, DefaultPrecision) &&
              r.record.groupedRows == |r.record.data| &&
              1 <= r.record.groupedRows <= r.record.totalRows
  {
    if req.file.None? then Failure(400, NoFileMessage)
    else if !Authenticated(req.userId) then Failure(401, UnauthenticatedMessage)
    else
      var routeName := req.routeName.GetOr(DefaultRouteName);
      var file := req.file.value;
      match file.sheet
      case None => Failure(500, ProcessErrorMessage)
      case Some(raws) =>
        var excelData := ReadExcelRows(raws);
        match DataValidation(excelData)
        case Invalid(message) => Failure(400, message)
        case Valid =>
          var groupedData := Grouped(excelData, DefaultPrecision);
          GroupedKeysDistinctAndCovering(excelData, DefaultPrecision);
          assert |groupedData| >= 1 by {
            assert GroupKey(excelData[0], DefaultPrecision) in Keys(excelData, DefaultPrecision);
          }
          if saveFails then Failure(500, ProcessErrorMessage)
          else Success(ProcessedRecord(req.userId.value, routeName, file.originalName,
                                       |excelData|, |groupedData|, groupedData))
  }

  // ---------------------------------------------------------------------
  // getHistory
  // ---------------------------------------------------------------------

  const DefaultLimit := 10
  const DefaultPage := 1

  /** `skip = (page - 1) * limit`, with `page` and `limit` defaulting to 1
      and 10 when the query leaves them out. */
  function Skip(page: Option<int>, limit: Option<int>): (skip: int)
    ensures page.GetOr(DefaultPage) == 1 ==> skip == 0
  {
    (page.GetOr(DefaultPage) - 1) * limit.GetOr(DefaultLimit)
  }

  /** From page 1 on, the skips of consecutive pages are `limit` apart and
      never negative, so the pages lie side by side. */
  lemma SkipWindows(page: int, limit: int)
    requires page >= 1 && limit >= 0
    ensures Skip(Some(page), Some(limit)) >= 0
    ensures Skip(Some(page + 1), Some(limit)) == Skip(Some(page), Some(limit)) + limit
  {
    MulMonotone(0, page - 1, limit);
  }

  /** `Math.ceil(total / limit)` as JavaScript computes it. */
  datatype PageCount = Pages(count: int) | Infinite | NotANumber

  /** The number of pages: the ceiling of `total / limit` for a positive
      limit; for a negative one the quotient is negative and its ceiling
      rounds towards zero; a zero limit gives `Infinity`, or `NaN` when
      there are no records either. */
  function PageCountOf(total: nat, limit: int): (p: PageCount)
    ensures limit > 0 ==> p.Pages? && p.count >= 0 && (total == 0 ==> p.count == 0) &&
                          (total > 0 ==> (p.count - 1) * limit < total <= p.count * limit)
    ensures limit < 0 ==> p.Pages? && p.count <= 0
    ensures limit == 0 ==> (p == Infinite <==> total > 0) && (p == NotANumber <==> total == 0)
  {
    if limit > 0 then Pages((total + limit - 1) / limit)
    else if limit < 0 then Pages(-(total / -limit))
    else if total == 0 then NotANumber
    else Infinite
  }

  /** The pagination of `getHistory` for `total` records. */
  datatype Pagination = Pagination(total: nat, page: int, limit: int, pages: PageCount)

  function HistoryPagination(total: nat, page: Option<int>, limit: Option<int>): (p: Pagination)
    ensures p.total == total
    ensures p.page == page.GetOr(DefaultPage) && p.limit == limit.GetOr(DefaultLimit)
    ensures p.pages == PageCountOf(total, p.limit)
  {
    var l := limit.GetOr(DefaultLimit);
    Pagination(total, page.GetOr(DefaultPage), l, PageCountOf(total, l))
  }

  /** With a positive limit the pages 1..pages tile the records: record
      `index` (counted from the newest) lies on exactly one page, and that
      page is within the page count. */
  lemma PagesCoverRecords(total: nat, limit: int, index: nat)
    requires limit > 0 && index < total
    ensures var page := index / limit + 1;
            var pages := PageCountOf(total, limit).count;
            1 <= page <= pages &&
            Skip(Some(page), Some(limit)) <= index < Skip(Some(page), Some(limit)) + limit
    ensures forall page: int :: Skip(Some(page), Some(limit)) <= index < Skip(Some(page), Some(limit)) + limit ==>
              page == index / limit + 1
  {
    var page := index / limit + 1;
    PageHoldsIndex(limit, index);
    PageWithinCount(total, limit, index);
    forall p: int | Skip(Some(p), Some(limit)) <= index < Skip(Some(p), Some(limit)) + limit
      ensures p == page
    {
      OnlyPageHoldingIndex(limit, index, p);
    }
  }

  lemma PageHoldsIndex(limit: int, index: nat)
    requires limit > 0
    ensures (index / limit) * limit <= index < (index / limit) * limit + limit
  {
  }

  lemma PageWithinCount(total: nat, limit: int, index: nat)
    requires limit > 0 && index < total
    ensures index / limit + 1 <= PageCountOf(total, limit).count
  {
    var q := index / limit;
    var pages := PageCountOf(total, limit).count;
    if q >= pages {
      MulMonotone(pages, q, limit);
      assert false;
    }
  }

  lemma OnlyPageHoldingIndex(limit: int, index: nat, p: int)
    requires limit > 0
    requires (p - 1) * limit <= index < (p - 1) * limit + limit
    ensures p == index / limit + 1
  {
    var q := index / limit;
    assert q * limit <= index < q * limit + limit;
    assert (p - 1) * limit + limit == p * limit;
    assert q * limit + limit == (q + 1) * limit;
    if p - 1 < q {
      MulMonotone(p, q, limit);
    } else if p - 1 > q {
      MulMonotone(q + 1, p - 1, limit);
    }
  }

  /** Multiplying by a non-negative factor keeps the order. */
  lemma MulMonotone(a: int, b: int, c: int)
    requires a <= b && c >= 0
    ensures a * c <= b * c
  {
    assert b * c - a * c == (b - a) * c;
  }

  /** The default query asks for the ten newest records. */
  lemma DefaultQueryFirstTen()
    ensures Skip(None, None) == 0
    ensures HistoryPagination(25, None, None) == Pagination(25, 1, 10, Pages(3))
  {
  }

  // ---------------------------------------------------------------------
  // exportExcel
  // ---------------------------------------------------------------------

  /** The file name `exportExcel` sends for the day `day`, `month` (from 0,
      as `getMonth()`) and `year`: the route name with every character
      outside `[A-Za-z0-9]` replaced by `_`, then `_D-M-YYYY.xlsx` with day
      and month not zero-padded. */
  function DownloadFileName(routeName: string, day: int, month: int, year: int): (name: string)
    requires 1 <= day <= 31 && 0 <= month < 12
    ensures |name| > |routeName| + 5
    ensures name[..|routeName|] == ExportExcel.SanitizeFileName(routeName)
    ensures name[|routeName|] == '_'
    ensures name[|name| - 5..] == ".xlsx"
    ensures name[|routeName| + 1..|name| - 5] == DatePart(day, month, year)
  {
    var sanitized := ExportExcel.SanitizeFileName(routeName);
    var name := sanitized + "_" + DatePart(day, month, year) + ".xlsx";
    assert name[..|routeName|] == sanitized;
    assert name[|routeName| + 1..|name| - 5] == DatePart(day, month, year);
    name
  }

  /** `${getDate()}-${getMonth() + 1}-${getFullYear()}`. */
  function DatePart(day: int, month: int, year: int): string
    requires 1 <= day <= 31 && 0 <= month < 12
  {
    NatToString(day) + "-" + NatToString(month + 1) + "-" + IntToString(year)
  }

  const MissingIdMessage := "ID do processamento não fornecido"
  const ExportErrorMessage := "Erro ao exportar arquivo"
  const NotFoundMessage := "Dados não encontrados ou você não tem permissão para acessá-los"

  /** An error status with its message, or the workbook sent for download:
      its file name and the records of its one sheet. */
  datatype Download =
    | DownloadFailure(status: nat, message: string)
    | Workbook(fileName: string, records: seq<map<string, string>>)

  /** A record as the database returns it: its route name and its groups,
      `None` when the document carries no `data` (the stored schema declares
      no such field, so a document saved through it has none). */
  datatype StoredRecord = StoredRecord(routeName: string, data: Option<seq<GroupedData>>)

  /** `exportExcel`, where `found` is what the database returns for the id
      and the user (`None` when no record matches) and `day`, `month` and
      `year` are the date of the call. A missing or empty id is refused
      before the lookup; a record without groups makes the workbook
      generator throw, which the handler answers with 500; otherwise the
      groups are turned into a sheet named after the route and the date. */
  function ExportDownload(processedDataId: Option<string>, found: Option<StoredRecord>,
                          day: int, month: int, year: int): (r: Download)
    requires 1 <= day <= 31 && 0 <= month < 12
    ensures processedDataId.None? || processedDataId.value == "" ==> r == DownloadFailure(400, MissingIdMessage)
    ensures processedDataId.Some? && processedDataId.value != "" && found.None? ==>
              r == DownloadFailure(404, NotFoundMessage)
    ensures processedDataId.Some? && processedDataId.value != "" && found.Some? && found.value.data.None? ==>
              r == DownloadFailure(500, ExportErrorMessage)
    ensures r.Workbook? <==>
              processedDataId.Some? && processedDataId.value != "" && found.Some? && found.value.data.Some?
    ensures r.Workbook? ==>
              r.fileName == DownloadFileName(found.value.routeName, day, month, year) &&
              |r.records| == |found.value.data.value| &&
              forall i :: 0 <= i < |r.records| ==> r.records[i] == SheetExport.SheetRecord(found.value.data.value[i])
  {
    if processedDataId.None? || processedDataId.value == "" then DownloadFailure(400, MissingIdMessage)
    else match found
      case None => DownloadFailure(404, NotFoundMessage)
      case Some(record) =>
        match record.data
        case None => DownloadFailure(500, ExportErrorMessage)
        case Some(groups) =>
          Workbook(DownloadFileName(record.routeName, day, month, year), SheetExport.SheetRecords(groups))
  }

  /** The download is named as a workbook the upload filter accepts. */
  lemma DownloadFileNameIsWorkbook(routeName: string, day: int, month: int, year: int)
    requires 1 <= day <= 31 && 0 <= month < 12
    ensures FileValidation.HasExcelExtension(DownloadFileName(routeName, day, month, year))
  {
    var name := DownloadFileName(routeName, day, month, year);
    assert name == name[..|name| - 5] + ".xlsx";
    FileValidation.ExcelSuffixAccepted(name[..|name| - 5], ".xlsx");
  }

  /** A character that cannot end the quoted `filename` of a download
      header: an ASCII letter or digit, `_`, `-` or `.`. */
  predicate IsHeaderSafe(c: char)
  {
    IsAsciiAlnum(c) || c == '_' || c == '-' || c == '.'
  }

  predicate AllHeaderSafe(s: string)
  {
    forall i :: 0 <= i < |s| ==> IsHeaderSafe(s[i])
  }

  lemma AllHeaderSafeConcat(a: string, b: string)
    requires AllHeaderSafe(a) && AllHeaderSafe(b)
    ensures AllHeaderSafe(a + b)
  {
    forall i | 0 <= i < |a + b| ensures IsHeaderSafe((a + b)[i]) {
      if i >= |a| {
        assert (a + b)[i] == b[i - |a|];
      }
    }
  }

  /** Digits and dashes joined by a dash are digits and dashes. */
  lemma DashJoinAlphabet(x: string, z: string)
    requires AllHeaderSafe(x) && AllHeaderSafe(z)
    ensures AllHeaderSafe(x + "-" + z)
  {
    assert AllHeaderSafe("-");
    AllHeaderSafeConcat(x, "-");
    AllHeaderSafeConcat(x + "-", z);
  }

  /** The digits of a printed number, and its sign, are header safe. */
  lemma PrintedIntHeaderSafe(n: int)
    ensures AllHeaderSafe(IntToString(n))
  {
    var s := IntToString(n);
    forall i | 0 <= i < |s| ensures IsHeaderSafe(s[i]) {
      if n < 0 && i > 0 {
        assert s[i] == NatToString(-n)[i - 1];
      }
    }
  }

  /** Every character of an export name is a letter, a digit, `_`, `-` or
      `.`: it cannot close the quoted `filename` of the download header. */
  lemma DownloadFileNameIsHeaderSafe(routeName: string, day: int, month: int, year: int)
    requires 1 <= day <= 31 && 0 <= month < 12
    ensures AllHeaderSafe(DownloadFileName(routeName, day, month, year))
  {
    var sanitized := ExportExcel.SanitizeFileName(routeName);
    var date := DatePart(day, month, year);
    assert AllHeaderSafe(sanitized);
    assert AllHeaderSafe(date) by {
      PrintedIntHeaderSafe(day);
      PrintedIntHeaderSafe(month + 1);
      PrintedIntHeaderSafe(year);
      DashJoinAlphabet(IntToString(day), IntToString(month + 1));
      DashJoinAlphabet(IntToString(day) + "-" + IntToString(month + 1), IntToString(year));
    }
    assert AllHeaderSafe("_") && AllHeaderSafe(".xlsx") by {
      assert ".xlsx" == ['.', 'x', 'l', 's', 'x'];
    }
    AllHeaderSafeConcat(sanitized, "_");
    AllHeaderSafeConcat(sanitized + "_", date);
    AllHeaderSafeConcat(sanitized + "_" + date, ".xlsx");
  }

  /** Digit strings joined by `-` split back into the same strings. */
  lemma DashJoinedDigitsSplit(a: string, b: string, a': string, b': string)
    requires AllDigits(a) && AllDigits(a')
    requires a + "-" + b == a' + "-" + b'
    ensures a == a' && b == b'
  {
    LeadingDigitsConcat(a, "-" + b);
    LeadingDigitsConcat(a', "-" + b');
    assert a + "-" + b == a + ("-" + b);
    assert a' + "-" + b' == a' + ("-" + b');
    var s := a + "-" + b;
    assert a == s[..|a|] == a';
    assert b == s[|a| + 1..] == b';
  }

  /** Two digit strings and a tail joined by `-` split back into the
      same three parts. */
  lemma DashJoinedTripleSplit(s1: string, t1: string, u1: string, s2: string, t2: string, u2: string)
    requires AllDigits(s1) && AllDigits(t1) && AllDigits(s2) && AllDigits(t2)
    requires s1 + "-" + t1 + "-" + u1 == s2 + "-" + t2 + "-" + u2
    ensures s1 == s2 && t1 == t2 && u1 == u2
  {
    assert s1 + "-" + t1 + "-" + u1 == s1 + "-" + (t1 + "-" + u1);
    assert s2 + "-" + t2 + "-" + u2 == s2 + "-" + (t2 + "-" + u2);
    DashJoinedDigitsSplit(s1, t1 + "-" + u1, s2, t2 + "-" + u2);
    DashJoinedDigitsSplit(t1, u1, t2, u2);
  }

  /** The date part of an export name tells the day, month and year. */
  lemma DatePartInjective(d1: int, m1: int, y1: int, d2: int, m2: int, y2: int)
    requires 1 <= d1 <= 31 && 0 <= m1 < 12
    requires 1 <= d2 <= 31 && 0 <= m2 < 12
    requires DatePart(d1, m1, y1) == DatePart(d2, m2, y2)
    ensures d1 == d2 && m1 == m2 && y1 == y2
  {
    DashJoinedTripleSplit(NatToString(d1), NatToString(m1 + 1), IntToString(y1),
                          NatToString(d2), NatToString(m2 + 1), IntToString(y2));
    assert d1 == ParseDigits(NatToString(d1)) == ParseDigits(NatToString(d2)) == d2;
    assert m1 + 1 == ParseDigits(NatToString(m1 + 1)) == ParseDigits(NatToString(m2 + 1)) == m2 + 1;
    StorageNames.IntToStringInjective(y1, y2);
  }

  /** The download name tells the day: two different dates never give a
      route the same export name. */
  lemma DownloadFileNameTellsDate(routeName: string, d1: int, m1: int, y1: int, d2: int, m2: int, y2: int)
    requires 1 <= d1 <= 31 && 0 <= m1 < 12
    requires 1 <= d2 <= 31 && 0 <= m2 < 12
    requires DownloadFileName(routeName, d1, m1, y1) == DownloadFileName(routeName, d2, m2, y2)
    ensures d1 == d2 && m1 == m2 && y1 == y2
  {
    var n := DownloadFileName(routeName, d1, m1, y1);
    assert DatePart(d1, m1, y1) == n[|routeName| + 1..|n| - 5] == DatePart(d2, m2, y2);
    DatePartInjective(d1, m1, y1, d2, m2, y2);
  }
}
