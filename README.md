# BoraEntregar delivery-stop grouping, verified model

BoraEntregar takes a spreadsheet of delivery stops and merges stops that
share a place. Two stops share a place when their coordinates agree in the
leading characters and their addresses carry the same street number. The
grouped route can then be downloaded again as a workbook. This project
models the core of that pipeline in Dafny and proves what it promises.

- **Row normaliser** (`ExcelRows`). Each raw spreadsheet row (header text to
  cell text) becomes a canonical row. Every field is read through an ordered
  list of header aliases, and the first non-empty cell wins.
- **Address-number extractor** (`AddressNumber`). It returns the leading
  digits of the trimmed text between the first and the second comma.
- **Coordinate grouper** (`CoordinateGrouper`). The imperative loop uses an
  insertion-ordered key list beside a map. It is proved equal to a reference
  definition, and properties of that definition are proved: distinct keys,
  first-seen order, first row wins, sequences joined in input order, and
  every row in exactly one group.
- **Batch validator** (`ExcelValidator`). It checks that the batch is not
  empty, then checks the required fields of the first row only.
- **Server export mapping** (`SheetExport`). This is the column mapping of
  the generated workbook, and how such a sheet reads back through the
  normaliser.
- **Client upload validator** (`FileValidation`). A file must look like an
  Excel workbook, by extension or MIME type, and must not exceed 1 MiB. The
  type is checked first.
- **Client export** (`ExportExcel`). This covers the file-name sanitiser, the
  row mapping of the local download, and its file name.
- **Storage helpers**:
  - `StorageNames`: user-id sanitiser, date-folder name, stored file name.
  - `StorageFiles`: the age rule of the cleanup.
  - `StorageTree`: the upload tree (user, date, file) and its cleanup, as values.
  - `StorageListing`: listing and size queries, as values.
  - `FileStore`: a `Store` class whose methods clean up, list and measure
    the tree in place, each proved against those values.
- **Controller** (`ExcelController`):
  - the guard order and record of the processing endpoint;
  - the paging arithmetic of the history endpoint;
  - the guards, file name and rows of the download endpoint.
- Shared string helpers (`Text`) model the JavaScript operations the source
  relies on: `trim`, `split`, `substring`, `padStart`, `/^\d+/`,
  `String(n)` and ASCII case folding.

Several values come from outside the core and are parameters of the model:
the clock, the parsed sheet, the database lookup and save outcome, and the
file name parts. Each is listed under "## Left out".

`Math.ceil(total / limit)` is modelled as JavaScript evaluates it for every
limit, not only positive ones:
- a positive limit gives the integer ceiling;
- a negative limit gives a count that is zero or negative;
- a zero limit gives `Infinity` when there are records and `NaN` when there are none.

## Model

| member | source | states |
|---|---|---|
| Text.Trim | backend/src/utils/excelProcessor.ts:42 | the result is a contiguous slice of the input; only JavaScript white space is cut from either end; the result neither starts nor ends with white space |
| Text.Split | backend/src/utils/excelProcessor.ts:39 | at least one part; no part contains the separator; joining the parts with the separator gives the input back; more than one part exactly when the separator occurs |
| Text.LeadingDigits | backend/src/utils/excelProcessor.ts:44-45 | the maximal run of ASCII digits at the start of the text: a prefix, all digits, followed by the end or a non-digit |
| Text.Substring0 | backend/src/utils/excelProcessor.ts:68-69 | `substring(0, n)` is the prefix of length n clipped to 0 and to the text length |
| Text.PadStart | backend/src/utils/fileStorage.ts:24-25 | the text is padded on the left with the fill character up to the width and never shortened |
| AddressNumber.ExtractAddressNumber | backend/src/utils/excelProcessor.ts:38-49 | always digits; empty when the address has no comma; otherwise the maximal leading digit run of the trimmed text between the first and the second comma |
| AddressNumber.ExtractAddressNumberBySplit | backend/src/utils/excelProcessor.ts:39-45 | equals the source's form: split on commas, trim the second part when there is one, take its leading digits |
| AddressNumber.AddressNumberAfterComma | backend/src/utils/excelProcessor.ts:38-49 | "street, digits rest" gives the digits when the street has no comma and the rest does not continue the digits, as in "Rua A, 123 - Apt 4" giving "123" |
| AddressNumber.AddressNumberNoDigitAfterComma | backend/src/utils/excelProcessor.ts:38-49 | "street, rest" gives "" when the rest starts with neither a digit nor white space, as in "Rua A, Apt B" |
| ExcelRows.Lookup | backend/src/utils/excelProcessor.ts:21-27 | the cell of the first alias whose cell is present and non-empty, no alias before it qualifying; "" exactly when no alias qualifies |
| ExcelRows.ReadExcelRows | backend/src/utils/excelProcessor.ts:20-28 | one canonical row per raw row, same length and order |
| ExcelRows.NormalizeRowAliases | backend/src/utils/excelProcessor.ts:20-28 | sequence, address, bairro, city, latitude and longitude each come from the capitalised header, else the camel-case one, else "" |
| ExcelRows.ZipcodeHeaderPriority | backend/src/utils/excelProcessor.ts:25 | the zipcode comes from "Zipcode/Postal code", else "Zipcode", else "zipcode", else "" |
| ExcelValidator.DataValidation | backend/src/utils/excelProcessor.ts:136-154 | empty batch: the empty-file message; valid exactly when the first row has latitude, longitude and destinationAddress; otherwise the message names the first empty field in that order |
| ExcelValidator.ValidateExcelData | backend/src/utils/excelProcessor.ts:136-154 | the loop with its early return gives exactly the verdict of DataValidation |
| ExcelValidator.OnlyFirstRowValidated | backend/src/utils/excelProcessor.ts:141-145 | rows after the first never change the verdict |
| CoordinateGrouper.Keys | backend/src/utils/excelProcessor.ts:67-75 | one key per row, in order: latitude prefix, "_", longitude prefix, "_", address number |
| CoordinateGrouper.GroupKeyIdentifiesStop | backend/src/utils/excelProcessor.ts:67-75 | when no coordinate prefix holds "_", two rows share a key exactly when their latitude prefixes, longitude prefixes and address numbers agree |
| CoordinateGrouper.KeyCollisionAcrossUnderscore | backend/src/utils/excelProcessor.ts:67-75 | latitude "1_2" with longitude "3" and latitude "1" with longitude "2_3" get the same key |
| CoordinateGrouper.RowsWithKey | backend/src/utils/excelProcessor.ts:77-91 | the rows of one key are no more than the input, and there are some exactly when the key occurs |
| CoordinateGrouper.Distinct | backend/src/utils/excelProcessor.ts:77-91 | the same keys as the input with no repeats and no more entries than the input |
| CoordinateGrouper.GroupByCoordinates | backend/src/utils/excelProcessor.ts:58-96 | the loop over an insertion-ordered key list and a key-to-group map returns exactly the reference grouping |
| CoordinateGrouper.AppendKnownKey | backend/src/utils/excelProcessor.ts:77-80 | a row whose key is already mapped appends "; " and its sequence to that group, and the loop state is kept |
| CoordinateGrouper.AppendNewKey | backend/src/utils/excelProcessor.ts:83-91 | a row with an unseen key opens a group that is a copy of the row, at the end of the insertion order |
| CoordinateGrouper.RowsWithKeyFirst | backend/src/utils/excelProcessor.ts:83-91 | the first row of a group is the first input row that carries its key |
| CoordinateGrouper.GroupedKeys | backend/src/utils/excelProcessor.ts:68-91 | each group's key is the key it was formed under; all its fields but sequence are the first such row's; its sequence is the "; "-join of the sequences of all rows with that key, in input order |
| CoordinateGrouper.GroupedKeysDistinctAndCovering | backend/src/utils/excelProcessor.ts:64-95 | no more groups than rows; no groups for no rows; group keys pairwise distinct; every row's key is some group's key |
| CoordinateGrouper.DistinctFirstSeenOrder | backend/src/utils/excelProcessor.ts:64-95 | distinct keys are listed by increasing position of first occurrence |
| CoordinateGrouper.GroupedFirstSeenOrder | backend/src/utils/excelProcessor.ts:83-95 | groups come out in the order their keys were first seen |
| CoordinateGrouper.GroupedSnoc | backend/src/utils/excelProcessor.ts:77-91 | one more row either appends a group equal to the row (new key) or changes only the sequence of the one group with its key (known key) |
| CoordinateGrouper.GroupsPartitionInput | backend/src/utils/excelProcessor.ts:66-95 | the group sizes add up to the number of input rows |
| SheetExport.ExportHeadersUnique | backend/src/utils/excelProcessor.ts:110-116 | the seven export headers are pairwise distinct |
| SheetExport.SheetRecord | backend/src/utils/excelProcessor.ts:109-117 | the record has exactly the seven headers, each holding its field of the group in column order |
| SheetExport.SheetRecordColumns | backend/src/utils/excelProcessor.ts:109-117 | each of the seven export headers is in the record and holds its own field of the group |
| SheetExport.SheetRecords | backend/src/utils/excelProcessor.ts:109-117 | one record per group, in order |
| SheetExport.AliasesNotExported | backend/src/utils/excelProcessor.ts:21-27 | no lower-case alias and neither "Sequence" nor "Zipcode" is an export header |
| SheetExport.ExportThenNormalize | backend/src/utils/excelProcessor.ts:109-117 | normalising an exported record gives back every field of the group except sequence, which reads as "" because "Sequencia" is not an alias |
| FileValidation.IsValidExcelFile | frontend/src/utils/fileValidation.ts:6-14 | true exactly when the name ends in .xlsx or .xls ignoring ASCII case, or the MIME type is one of the two allowed ones |
| FileValidation.IsValidFileSize | frontend/src/utils/fileValidation.ts:19-21 | true exactly when the size is at most 1048576 bytes |
| FileValidation.ValidateFile | frontend/src/utils/fileValidation.ts:33-49 | accepted exactly when both checks pass; the type message exactly when the file does not look like a workbook; the literal "10MB" size message exactly when it does but is over the size bound; no other rejection |
| FileValidation.TypeCheckedBeforeSize | frontend/src/utils/fileValidation.ts:34-39 | a file of the wrong type gets the type message whatever its size |
| FileValidation.ExtensionAnchoredAtEnd | frontend/src/utils/fileValidation.ts:8 | a name whose last character is not s or x has no workbook extension |
| FileValidation.DoubleExtensionRefused | frontend/src/utils/fileValidation.ts:8 | "a.xlsx.txt" with an unlisted MIME type is refused |
| FileValidation.ExtensionIgnoresCase | frontend/src/utils/fileValidation.ts:8 | names equal up to ASCII case are accepted alike |
| FileValidation.ExcelSuffixAccepted | frontend/src/utils/fileValidation.ts:8 | any name ending in .xlsx or .xls in any ASCII case is accepted |
| FileValidation.SizeBoundIsOneMebibyte | frontend/src/constants/index.ts:10 | exactly 1 MiB is accepted and one byte more is refused |
| ExportExcel.SanitizeFileName | frontend/src/utils/exportExcel.ts:49-51 | same length; ASCII letters and digits stay in place; every other character becomes "_" |
| ExportExcel.SanitizedAlphabet | frontend/src/utils/exportExcel.ts:50 | the result holds only ASCII letters, digits and "_" |
| ExportExcel.SanitizeIdempotent | frontend/src/utils/exportExcel.ts:50 | sanitising twice is sanitising once |
| ExportExcel.SanitizeFixedPoint | frontend/src/utils/exportExcel.ts:50 | a name is left unchanged exactly when it holds only ASCII letters, digits and "_" |
| ExportExcel.OrEmpty | frontend/src/utils/exportExcel.ts:17-19 | an absent or empty text becomes "", any other is kept |
| ExportExcel.ExportRecordOf | frontend/src/utils/exportExcel.ts:14-22 | one row's record: the sequence or else index + 1, address and coordinates copied, bairro, city and zipcode or "" |
| ExportExcel.ExportRows | frontend/src/utils/exportExcel.ts:14-22 | one record per row, in order; absent data gives no records |
| ExportExcel.SequenceCell | frontend/src/utils/exportExcel.ts:15 | the sequence cell is the row's sequence when non-empty, else the number index + 1 |
| ExportExcel.CopiedCells | frontend/src/utils/exportExcel.ts:16-21 | address and coordinates are copied; bairro, city and zipcode default to "" |
| ExportExcel.ExportFileName | frontend/src/utils/exportExcel.ts:42 | the sanitised route name followed by "_processado.xlsx" |
| ExportExcel.ExportFileNameIsWorkbook | frontend/src/utils/exportExcel.ts:42 | the written file passes the client's own workbook-extension check |
| StorageNames.SanitizeUserId | backend/src/utils/fileStorage.ts:14-16 | same length; ASCII letters, digits, "_" and "-" stay in place; every other character becomes "_" |
| StorageNames.SanitizedUserIdAlphabet | backend/src/utils/fileStorage.ts:15 | the result holds only ASCII letters, digits, "_" and "-" |
| StorageNames.SanitizeUserIdIdempotent | backend/src/utils/fileStorage.ts:15 | sanitising twice is sanitising once |
| StorageNames.SanitizeUserIdFixedPoint | backend/src/utils/fileStorage.ts:15 | an id is left unchanged exactly when it holds only allowed characters |
| StorageNames.SanitizeSeparator | backend/src/utils/fileStorage.ts:15 | two clean parts joined by a disallowed separator come out joined by "_" |
| StorageNames.SanitizeAuth0Subject | backend/src/utils/fileStorage.ts:15 | "auth0" followed by a vertical bar and "abc" becomes "auth0_abc" |
| StorageNames.GetDateFolder | backend/src/utils/fileStorage.ts:21-27 | the year, "-", the month + 1 as two digits, "-", the day as two digits |
| StorageNames.DateFolderInjective | backend/src/utils/fileStorage.ts:21-27 | different dates give different folder names |
| StorageNames.GenerateFileName | backend/src/utils/fileStorage.ts:48-53 | the timestamp's digits, "_", the base name with every character other than an ASCII letter or digit replaced by "_" (the same replacement as ExportExcel.SanitizeFileName), the extension; the leading digits read back as the timestamp |
| StorageNames.GeneratedNamesDiffer | backend/src/utils/fileStorage.ts:48-53 | names made at different timestamps differ, whatever the file names |
| StorageFiles.Kept | backend/src/utils/fileStorage.ts:216-226 | the files left in a folder are all fresh and no more than before |
| StorageFiles.Removed | backend/src/utils/fileStorage.ts:216-226 | the files deleted from a folder have all expired, strictly older than the limit |
| StorageFiles.KeptRemovedPartition | backend/src/utils/fileStorage.ts:216-226 | kept and deleted files add up to the folder, in count and in bytes |
| StorageFiles.KeptRemovedPermutation | backend/src/utils/fileStorage.ts:216-226 | every file is either kept or deleted, exactly once |
| StorageFiles.FreshFilesKept | backend/src/utils/fileStorage.ts:221 | a folder with no expired file is left as it is and nothing is deleted |
| StorageFiles.ExpiryBoundary | backend/src/utils/fileStorage.ts:190-221 | a file is deleted exactly when its last change is more than daysOld days of milliseconds before now; one exactly at the limit is kept |
| StorageFiles.DefaultMaxAge | backend/src/utils/fileStorage.ts:188-190 | the default limit is 30 days, 2592000000 ms |
| StorageTree.CleanDatesTidy | backend/src/utils/fileStorage.ts:208-233 | after cleaning a user folder, no date folder in it is empty and none holds an expired file |
| StorageTree.CleanUsersTidy | backend/src/utils/fileStorage.ts:200-240 | after cleanup, no user folder is empty and every date folder in one is tidy |
| StorageTree.CleanDatesKeepsFresh | backend/src/utils/fileStorage.ts:208-233 | the files left under a user folder are exactly its fresh files, in order |
| StorageTree.CleanUsersKeepsFresh | backend/src/utils/fileStorage.ts:200-240 | the files left in the store are exactly its fresh files, in order |
| StorageTree.CleanUsersTally | backend/src/utils/fileStorage.ts:191-242 | the report counts and adds up exactly the expired files of the whole store |
| StorageTree.CleanupConserves | backend/src/utils/fileStorage.ts:188-243 | files left plus files deleted is the file count before, and likewise for bytes |
| StorageTree.TidyUsersKept | backend/src/utils/fileStorage.ts:200-240 | a store that is already tidy is left as it is, with a zero report |
| StorageTree.CleanupIdempotent | backend/src/utils/fileStorage.ts:188-243 | a second cleanup at the same instant changes nothing and reports zero |
| StorageTree.DateOthersKept | backend/src/utils/fileStorage.ts:212 | entries of a user folder that are not folders are skipped and stay, and so keep the folder |
| StorageTree.UserOthersKept | backend/src/utils/fileStorage.ts:204 | entries of the upload base that are not folders are skipped and stay |
| StorageListing.DatePaths | backend/src/utils/fileStorage.ts:142-146 | one path per file of a date folder, in listing order, naming the user, the date folder and the file |
| StorageListing.ListedFiles | backend/src/utils/fileStorage.ts:127-151 | a failure exactly when the sanitised id is non-empty and its entry is not a folder; every listed path carries the sanitised id as its user part |
| StorageListing.BaseEntryPaths | backend/src/utils/fileStorage.ts:136-146 | with an empty id, one path per entry of a user folder, naming the user folder where a date folder would be and the entry where a file would be |
| StorageListing.BasePaths | backend/src/utils/fileStorage.ts:136-146 | with an empty id, every listed path has an empty user part |
| StorageListing.StatFindsFile | backend/src/utils/fileStorage.ts:114-122 | stat of a listed file reports that file's size |
| StorageListing.StatFindsEntry | backend/src/utils/fileStorage.ts:114-122 | stat of a path listed for the empty id reports the size of the user-folder entry it names |
| StorageListing.StorageSize | backend/src/utils/fileStorage.ts:168-183 | a failure exactly when the listing fails |
| StorageListing.StorageSizeIsFolderBytes | backend/src/utils/fileStorage.ts:168-183 | for a non-empty id whose entry is a folder, when no file vanishes, the storage size is the byte total of the user's files |
| StorageListing.VanishedFilesSkipped | backend/src/utils/fileStorage.ts:172-179 | files removed after the listing are skipped, so the size can only shrink |
| StorageListing.UnknownUserIsEmpty | backend/src/utils/fileStorage.ts:131-133 | a non-empty id with no folder has no files and size 0 |
| StorageListing.EmptyIdListsBase | backend/src/utils/fileStorage.ts:127-183 | the empty id sanitises to "", so the upload base is read as the user folder: every entry of every user folder is listed, and the size is the sum of what stat reports of those entries |
| StorageListing.EmptyIdReadsOtherUsers | backend/src/utils/fileStorage.ts:127-183 | with one user "alice" holding one date folder, the empty id lists that date folder and measures the folder's own size, not its workbook |
| FileStore.CleanFiles | backend/src/utils/fileStorage.ts:216-226 | the loop over one folder's files leaves the kept files and reports the deleted count and bytes |
| FileStore.CleanDateEntry | backend/src/utils/fileStorage.ts:209-232 | one date entry: a non-folder is skipped; a folder is cleaned and dropped when empty |
| FileStore.CleanDateFolders | backend/src/utils/fileStorage.ts:206-233 | the loop over a user folder's entries gives the cleaned entries and their report |
| FileStore.CleanUserEntry | backend/src/utils/fileStorage.ts:201-239 | one user entry: a non-folder is skipped; a folder is cleaned and dropped when empty |
| FileStore.CollectBasePaths | backend/src/utils/fileStorage.ts:135-148 | with the upload base as the user folder, the nested loop pushes exactly one path per entry of every user folder, in order |
| FileStore.CollectPaths | backend/src/utils/fileStorage.ts:135-148 | the nested loop pushes exactly the paths of every file of every date folder, in order |
| FileStore.Store.CleanupOldFiles | backend/src/utils/fileStorage.ts:188-243 | the store becomes its cleaned tree and the report is its tally, with daysOld defaulting to 30 |
| FileStore.Store.ListUserFiles | backend/src/utils/fileStorage.ts:127-151 | the listing of the sanitised user's folder: none without a folder, a failure for a non-folder entry, and for an empty id the upload base read one level down |
| FileStore.AddUpSizes | backend/src/utils/fileStorage.ts:172-179 | the loop adds what stat reports of each path and skips a path whose stat fails, giving the size of the listing |
| FileStore.Store.GetUserStorageSize | backend/src/utils/fileStorage.ts:168-183 | the loop adds the size of each listed file whose stat succeeds |
| FileStore.CleanupTwice | backend/src/utils/fileStorage.ts:188-243 | after a cleanup the store is tidy, holds exactly its fresh files, the report balances, and a second run reports zero |
| ExcelController.ProcessExcel | backend/src/controllers/excelController.ts:12-89 | guard order: no file 400, no user 401, unreadable sheet 500, invalid batch 400 with the validator's message; once valid, success exactly when the save succeeds; the record holds the user, the route name or "Rota Padrão", the file name, the raw row count, the grouping and its length, with 1 <= groupedRows <= totalRows |
| ExcelController.Skip | backend/src/controllers/excelController.ts:155 | page 1, the default, skips nothing |
| ExcelController.SkipWindows | backend/src/controllers/excelController.ts:155 | from page 1 on the skip is never negative and the next page skips exactly one limit more |
| ExcelController.PageCountOf | backend/src/controllers/excelController.ts:174 | positive limit: the least page count covering all records; negative limit: not positive; zero limit: Infinity with records, NaN without |
| ExcelController.HistoryPagination | backend/src/controllers/excelController.ts:152-174 | the total is passed through; page defaults to 1, limit to 10; pages is the page count of the total under that limit |
| ExcelController.PagesCoverRecords | backend/src/controllers/excelController.ts:155-174 | for a positive limit every record lies in the skip window of exactly one page, and that page is within the page count |
| ExcelController.DefaultQueryFirstTen | backend/src/controllers/excelController.ts:152-155 | with no query the first ten records are asked for; 25 records give 3 pages |
| ExcelController.DownloadFileName | backend/src/controllers/excelController.ts:124 | the sanitised route name, "_", day-month-year unpadded with the month counted from 1, ".xlsx" |
| ExcelController.ExportDownload | backend/src/controllers/excelController.ts:95-143 | no id or an empty id 400; nothing found 404; a found record without groups 500 with "Erro ao exportar arquivo"; a workbook exactly when the id is given and a record with groups is found, named by DownloadFileName and holding one export record per stored group, in order |
| ExcelController.DownloadFileNameIsWorkbook | backend/src/controllers/excelController.ts:124 | the download name passes the client's workbook-extension check |
| ExcelController.DownloadFileNameIsHeaderSafe | backend/src/controllers/excelController.ts:131 | the download name holds only letters, digits, "_", "-" and ".", so it cannot break out of the quoted header value |
| ExcelController.DatePartInjective | backend/src/controllers/excelController.ts:124 | different dates give different unpadded date parts |
| ExcelController.DownloadFileNameTellsDate | backend/src/controllers/excelController.ts:124 | two downloads of one route on different dates get different names |

## Left out

- Spreadsheet parsing and writing are foreign library calls and are not modelled. This covers `XLSX.read`, `sheet_to_json`, `json_to_sheet`, `write`, `writeFile`, sheet names and column widths. A sheet is given as its rows; a sheet the reader cannot parse is given as absent, and the controller then answers 500.
- JavaScript value coercion is not modelled. Cells are text and truthiness is non-emptiness; a numeric `0` cell, for instance, is not modelled. Query values are integers; `Number()` of a non-numeric text, which gives `NaN`, is not modelled.
- The group key is the concatenated text, as in the source. Latitudes or longitudes containing "_" can therefore collide, and the model keeps that behaviour (CoordinateGrouper.KeyCollisionAcrossUnderscore).
- ExcelController.ProcessExcel: the database save is a parameter that only says whether it fails. What the save stores, the saved record's `_id` and `processedAt`, and the response built from the saved record are not modelled. The record stated is the one handed to the save.
- ExcelController.ExportDownload: the database lookup filtered by user is a parameter, the record found or none. The date comes from the clock and is a parameter. The record's groups are optional. The `ProcessedData` schema in backend/src/models/ProcessedData.ts declares no `data` path, so a record read back through it has no groups; `generateExcelFile` then throws and the handler answers 500. The model gives that 500 for a record without groups. Other failures inside the workbook writer are not modelled.
- ExcelController.ProcessExcel: the same schema requires `filePath` (backend/src/models/ProcessedData.ts:45-48), and the handler never sets it, so as written the save is rejected and the handler answers 500. The save outcome is a parameter, so the model covers that case but does not derive it from the schema.
- ExcelController.HistoryPagination: the database query itself (`find`, `select`, `sort`, `limit`, `skip`, `countDocuments`) is not modelled; the total is a parameter. Only the skip and page arithmetic is modelled.
- ExcelController.PageCountOf: for a negative limit the contract states only that the count is not positive, not its exact value.
- Express routing, multer, the authentication middleware and error logging are not modelled. The user id arrives as an optional text.
- The clock (`Date.now`, `new Date()`) is a parameter wherever it is read. This covers the date folder, the stored file name, the cleanup instant and the download name.
- `path.basename` and `path.extname` are not modelled: the stored file name takes the base name and the extension as parameters.
- The filesystem is a value: user folders holding date folders holding files, in listing order.
  - A missing upload base is modelled as an empty one; both report nothing.
  - A file whose `stat` fails between listing and sizing is modelled by the set `gone`.
  - Subdirectories inside a date folder are not modelled.
  - Failures of `readdir`, `unlink` and `rmdir` during cleanup are not modelled.
  - FileStore.Store.ListUserFiles: a user entry that is not a folder gives `None`, standing for the rejected promise of `readdir`.
  - What `stat` reports of an entry of a user folder (a date folder's own directory size, or another file's size) is a field of the entry. It matters only when the empty id lists those entries.
  - Entry names in a directory are never empty. StorageListing.StatFindsFile and StorageListing.StorageSizeIsFolderBytes therefore take a non-empty id, and StorageListing.UnknownUserIsEmpty does too, because an empty id names the upload base itself. StorageListing.EmptyIdListsBase states the empty id.
- FileStore.Store.CleanupOldFiles: the two counters are kept as one tally value that the loop accumulates.
- The other file-storage operations are not modelled, because they are thin wrappers over filesystem calls: `ensureUserDateDir`, `saveFile`, `readFile`, `deleteFile`, `fileExists`, `getAbsolutePath` and `deleteUserDateFolder`.
- `getFileInfo` is modelled only as the size that `stat` reports; its birth time is not modelled.
- `formatFileSize` computes in floating point and is not modelled.
- Texts are sequences of Unicode scalar values, while JavaScript strings are sequences of UTF-16 code units. For text outside the Basic Multilingual Plane the lengths differ, and a surrogate pair is two code units for `substring` and for the `/[^a-z0-9]/gi` replacements.
- ExportExcel.SanitizeFileName: "same length" counts scalar values; JavaScript replaces each code unit of a surrogate pair, so such a character becomes "__".
- StorageNames.SanitizeUserId: the same difference; a character outside the Basic Multilingual Plane becomes "__" in JavaScript and "_" in the model.
- Text.Substring0: n counts scalar values, not UTF-16 code units, so a prefix can differ when the coordinate text holds characters outside the Basic Multilingual Plane.
- StorageFiles.Expired: `mtimeMs` is a floating-point millisecond count in Node and is modelled as an integer.
- FileStore.Store.CleanupOldFiles: `daysOld` is a JavaScript number and can be fractional; the model takes an integer.
- The React components, services and service worker of the client are not modelled.
- The client's local download does not model writing the file; it stops at the records and the file name.
