/** The spreadsheet export of the web client: the file-name sanitiser, the
    row mapping of `exportToExcel` and the name of the file it writes. */
module ExportExcel {
  import opened Text
  import opened Wrappers
  import FileValidation

  // ---------------------------------------------------------------------
  // File-name sanitiser
  // ---------------------------------------------------------------------

  /** `name.replace(/[^a-z0-9]/gi, '_')`: every character that is not an
      ASCII letter or digit becomes an underscore. */
  function SanitizeFileName(name: string): (r: string)
    ensures |r| == |name|
    ensures forall i :: 0 <= i < |name| ==> r[i] == if IsAsciiAlnum(name[i]) then name[i] else '_'
  {
    ReplaceOutside(name, IsAsciiAlnum, '_')
  }

  /** The sanitised name uses only ASCII letters, digits and underscores. */
  lemma SanitizedAlphabet(name: string)
    ensures forall i :: 0 <= i < |name| ==>
              IsAsciiAlnum(SanitizeFileName(name)[i]) || SanitizeFileName(name)[i] == '_'
  {
  }

  /** Sanitising twice is sanitising once (the underscore is replaced by
      itself). */
  lemma SanitizeIdempotent(name: string)
    ensures SanitizeFileName(SanitizeFileName(name)) == SanitizeFileName(name)
  {
    var once := SanitizeFileName(name);
    var twice := SanitizeFileName(once);
    assert forall i :: 0 <= i < |name| ==> twice[i] == once[i];
  }

  /** A name is left unchanged exactly when it already uses only ASCII
      letters, digits and underscores. */
  lemma SanitizeFixedPoint(name: string)
    ensures SanitizeFileName(name) == name <==>
              forall i :: 0 <= i < |name| ==> IsAsciiAlnum(name[i]) || name[i] == '_'
  {
    ReplaceOutsideFixedPoint(name, IsAsciiAlnum, '_');
  }

  // ---------------------------------------------------------------------
  // Row mapping
  // ---------------------------------------------------------------------

  /** A grouped row as the client holds it; `bairro`, `city` and `zipcode`
      are optional. */
  datatype ClientRow = ClientRow(
    sequence: string,
    destinationAddress: string,
    bairro: Option<string>,
    city: Option<string>,
    zipcode: Option<string>,
    latitude: string,
    longitude: string)

  /** A sheet cell: text, or the number written when the sequence is empty. */
  datatype Cell = TextCell(text: string) | NumberCell(number: int)

  /** One exported row, with the columns "Sequência", "Endereço", "Bairro",
      "Cidade", "CEP", "Latitude" and "Longitude", in that order. */
  datatype ExportRecord = ExportRecord(
    sequencia: Cell,
    endereco: string,
    bairro: string,
    cidade: string,
    cep: string,
    latitude: string,
    longitude: string)

  /** `value || ''` for an optional text. */
  function OrEmpty(value: Option<string>): (r: string)
    ensures value.Some? && value.value != "" ==> r == value.value
    ensures value.None? || value.value == "" ==> r == ""
  {
    match value
    case Some(v) => v
    case None => ""
  }

  /** The record for the row at `index`: the sequence, or the 1-based
      position when the sequence is empty. */
  function ExportRecordOf(row: ClientRow, index: nat): (rec: ExportRecord)
    ensures rec.sequencia == if row.sequence != "" then TextCell(row.sequence) else NumberCell(index + 1)
    ensures rec.endereco == row.destinationAddress && rec.latitude == row.latitude && rec.longitude == row.longitude
    ensures rec.bairro == OrEmpty(row.bairro) && rec.cidade == OrEmpty(row.city) && rec.cep == OrEmpty(row.zipcode)
  {
    ExportRecord(
      if row.sequence != "" then TextCell(row.sequence) else NumberCell(index + 1),
      row.destinationAddress,
      OrEmpty(row.bairro),
      OrEmpty(row.city),
      OrEmpty(row.zipcode),
      row.latitude,
      row.longitude)
  }

  /** `(data || []).map((row, index) => ...)`: one record per row, in order;
      absent data gives no rows. */
  function ExportRows(data: Option<seq<ClientRow>>): (rows: seq<ExportRecord>)
    ensures data.None? ==> rows == []
    ensures data.Some? ==> |rows| == |data.value|
    ensures data.Some? ==> forall i :: 0 <= i < |rows| ==> rows[i] == ExportRecordOf(data.value[i], i)
  {
    var rows := data.GetOr([]);
    seq(|rows|, i requires 0 <= i < |rows| => ExportRecordOf(rows[i], i))
  }

  /** A row without a sequence is numbered by its position, counting from
      one; a row with one keeps it. */
  lemma SequenceCell(data: seq<ClientRow>, i: nat)
    requires i < |data|
    ensures data[i].sequence == "" ==> ExportRows(Some(data))[i].sequencia == NumberCell(i + 1)
    ensures data[i].sequence != "" ==> ExportRows(Some(data))[i].sequencia == TextCell(data[i].sequence)
  {
  }

  /** Every other cell is copied from the row, with absent optional texts
      written as empty cells. */
  lemma CopiedCells(data: seq<ClientRow>, i: nat)
    requires i < |data|
    ensures var rec := ExportRows(Some(data))[i];
            rec.endereco == data[i].destinationAddress
            && rec.latitude == data[i].latitude && rec.longitude == data[i].longitude
            && rec.bairro == OrEmpty(data[i].bairro) && rec.cidade == OrEmpty(data[i].city)
            && rec.cep == OrEmpty(data[i].zipcode)
  {
  }

  // ---------------------------------------------------------------------
  // File name
  // ---------------------------------------------------------------------

  const ExportSuffix := "_processado.xlsx"

  /** The name of the written file: the sanitised route name followed by
      "_processado.xlsx". */
  function ExportFileName(routeName: string): (name: string)
    ensures |name| == |routeName| + |ExportSuffix|
    ensures name[..|routeName|] == SanitizeFileName(routeName)
    ensures name[|routeName|..] == ExportSuffix
  {
    SanitizeFileName(routeName) + ExportSuffix
  }

  /** The file the client writes passes the client's own upload check on
      its name. */
  lemma ExportFileNameIsWorkbook(routeName: string)
    ensures FileValidation.HasExcelExtension(ExportFileName(routeName))
  {
    var name := ExportFileName(routeName);
    assert name == (SanitizeFileName(routeName) + "_processado") + ".xlsx";
    assert LowerAsciiString(".xlsx") == ".xlsx";
    FileValidation.ExcelSuffixAccepted(SanitizeFileName(routeName) + "_processado", ".xlsx");
  }
}
