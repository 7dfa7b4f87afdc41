/** The row mapping of `generateExcelFile` and how an exported sheet reads
    back through the normaliser. */
module SheetExport {
  import opened ExcelRows

  // ---------------------------------------------------------------------
  // Spreadsheet export mapping
  // ---------------------------------------------------------------------

  /** The column headers of the exported sheet, in column order. */
  const ExportHeaders: seq<string> :=
    ["Sequencia", "Destination Address", "Bairro", "City", "Zipcode/Postal code", "Latitude", "Longitude"]

  /** The cells of one exported group, in column order. */
  function SheetCells(row: GroupedData): (cells: seq<string>)
    ensures |cells| == |ExportHeaders|
  {
    [row.sequence, row.destinationAddress, row.bairro, row.city, row.zipcode, row.latitude, row.longitude]
  }

  predicate Unique(hs: seq<string>)
  {
    forall i, j :: 0 <= i < j < |hs| ==> hs[i] != hs[j]
  }

  lemma ExportHeadersUnique()
    ensures Unique(ExportHeaders)
  {
  }

  /** An object whose keys are `hs`, set in order, with values `vs`. */
  function Zip(hs: seq<string>, vs: seq<string>): (m: map<string, string>)
    requires |hs| == |vs|
    ensures forall h :: h in m <==> h in hs
  {
    if hs == [] then map[]
    else
      var m := Zip(hs[..|hs| - 1], vs[..|vs| - 1]);
      assert forall h :: h in hs <==> h in hs[..|hs| - 1] || h == hs[|hs| - 1] by {
        assert hs == hs[..|hs| - 1] + [hs[|hs| - 1]];
      }
      m[hs[|hs| - 1] := vs[|vs| - 1]]
  }

  /** With distinct keys, each key holds its own value. */
  lemma {:induction false} ZipLookup(hs: seq<string>, vs: seq<string>, i: nat)
    requires |hs| == |vs| && Unique(hs) && i < |hs|
    ensures Zip(hs, vs)[hs[i]] == vs[i]
  {
    if i < |hs| - 1 {
      assert hs[i] != hs[|hs| - 1];
      ZipLookup(hs[..|hs| - 1], vs[..|vs| - 1], i);
    }
  }

  /** The object `generateExcelFile` builds for one group: each header of
      `ExportHeaders` holds the matching cell. */
  function SheetRecord(row: GroupedData): (rec: map<string, string>)
    ensures forall h :: h in rec <==> h in ExportHeaders
    ensures forall i :: 0 <= i < |ExportHeaders| ==> rec[ExportHeaders[i]] == SheetCells(row)[i]
  {
    var rec := Zip(ExportHeaders, SheetCells(row));
    ExportHeadersUnique();
    forall i | 0 <= i < |ExportHeaders| ensures rec[ExportHeaders[i]] == SheetCells(row)[i] {
      ZipLookup(ExportHeaders, SheetCells(row), i);
    }
    rec
  }

  /** Column by column: "Sequencia" holds the sequence, "Destination
      Address" the address, and so on up to "Longitude". */
  lemma SheetRecordColumns(row: GroupedData)
    ensures var rec := SheetRecord(row);
            && "Sequencia" in rec && rec["Sequencia"] == row.sequence
            && "Destination Address" in rec && rec["Destination Address"] == row.destinationAddress
            && "Bairro" in rec && rec["Bairro"] == row.bairro
            && "City" in rec && rec["City"] == row.city
            && "Zipcode/Postal code" in rec && rec["Zipcode/Postal code"] == row.zipcode
            && "Latitude" in rec && rec["Latitude"] == row.latitude
            && "Longitude" in rec && rec["Longitude"] == row.longitude
  {
    var rec := SheetRecord(row);
    assert "Sequencia" in rec && rec["Sequencia"] == row.sequence by {
      SheetColumn(row, 0, "Sequencia");
    }
    assert "Destination Address" in rec && rec["Destination Address"] == row.destinationAddress by {
      SheetColumn(row, 1, "Destination Address");
    }
    assert "Bairro" in rec && rec["Bairro"] == row.bairro by {
      SheetColumn(row, 2, "Bairro");
    }
    assert "City" in rec && rec["City"] == row.city by {
      SheetColumn(row, 3, "City");
    }
    assert "Zipcode/Postal code" in rec && rec["Zipcode/Postal code"] == row.zipcode by {
      SheetColumn(row, 4, "Zipcode/Postal code");
    }
    assert "Latitude" in rec && rec["Latitude"] == row.latitude by {
      SheetColumn(row, 5, "Latitude");
    }
    assert "Longitude" in rec && rec["Longitude"] == row.longitude by {
      SheetColumn(row, 6, "Longitude");
    }
  }

  /** The header at column `i` holds the cell at column `i`. */
  lemma SheetColumn(row: GroupedData, i: nat, h: string)
    requires i < |ExportHeaders| && ExportHeaders[i] == h
    ensures h in SheetRecord(row) && SheetRecord(row)[h] == SheetCells(row)[i]
  {
  }

  /** The mapping step of `generateExcelFile`: one record per group, in order. */
  function SheetRecords(data: seq<GroupedData>): (recs: seq<map<string, string>>)
    ensures |recs| == |data|
    ensures forall i :: 0 <= i < |data| ==> recs[i] == SheetRecord(data[i])
  {
    seq(|data|, i requires 0 <= i < |data| => SheetRecord(data[i]))
  }

  /** A header list whose first header is present and whose others are
      absent reads the first header's cell, empty or not. */
  lemma LookupOnlyFirst(raw: RawRow, headers: seq<string>)
    requires headers != [] && headers[0] in raw
    requires forall i :: 1 <= i < |headers| ==> headers[i] !in raw
    ensures Lookup(raw, headers) == raw[headers[0]]
  {
    if raw[headers[0]] == "" {
      assert forall i :: 0 <= i < |headers| ==> !Truthy(raw, headers[i]);
    }
  }

  /** None of the reader's lower-case aliases, nor "Sequence", is an export
      header. */
  lemma AliasesNotExported()
    ensures "Sequence" !in ExportHeaders && "sequence" !in ExportHeaders
    ensures "destinationAddress" !in ExportHeaders && "bairro" !in ExportHeaders
    ensures "city" !in ExportHeaders && "Zipcode" !in ExportHeaders && "zipcode" !in ExportHeaders
    ensures "latitude" !in ExportHeaders && "longitude" !in ExportHeaders
  {
  }

  /** Reading an exported group back through the normaliser gives the group
      again, except its `sequence`: the export writes it under "Sequencia",
      which is not one of the headers the reader looks for. */
  lemma ExportThenNormalize(row: GroupedData)
    ensures NormalizeRow(SheetRecord(row)) == row.(sequence := "")
  {
    var raw := SheetRecord(row);
    var cells := SheetCells(row);
    AliasesNotExported();
    assert raw[ExportHeaders[1]] == cells[1];
    assert raw[ExportHeaders[2]] == cells[2];
    assert raw[ExportHeaders[3]] == cells[3];
    assert raw[ExportHeaders[4]] == cells[4];
    assert raw[ExportHeaders[5]] == cells[5];
    assert raw[ExportHeaders[6]] == cells[6];
    LookupOnlyFirst(raw, DestinationAddressHeaders);
    LookupOnlyFirst(raw, BairroHeaders);
    LookupOnlyFirst(raw, CityHeaders);
    LookupOnlyFirst(raw, ZipcodeHeaders);
    LookupOnlyFirst(raw, LatitudeHeaders);
    LookupOnlyFirst(raw, LongitudeHeaders);
  }
}
