/** The canonical row of `ExcelProcessor` and the row normaliser of
    `readExcelFile`: each field is read through an ordered list of header
    aliases. */
module ExcelRows {
  // ---------------------------------------------------------------------
  // Data model
  // ---------------------------------------------------------------------

  /** A canonical row. A grouped row has the same shape; its `sequence`
      holds the `"; "`-joined sequences of every row merged into it. */
  datatype ExcelRow = ExcelRow(
    sequence: string,
    destinationAddress: string,
    bairro: string,
    city: string,
    zipcode: string,
    latitude: string,
    longitude: string)

  type GroupedData = ExcelRow

  /** A row as the spreadsheet reader delivers it: header text to cell text.
      A header missing from the map is an absent (`undefined`) cell. */
  type RawRow = map<string, string>

  // ---------------------------------------------------------------------
  // Row normaliser
  // ---------------------------------------------------------------------

  const SequenceHeaders: seq<string> := ["Sequence", "sequence"]
  const DestinationAddressHeaders: seq<string> := ["Destination Address", "destinationAddress"]
  const BairroHeaders: seq<string> := ["Bairro", "bairro"]
  const CityHeaders: seq<string> := ["City", "city"]
  const ZipcodeHeaders: seq<string> := ["Zipcode/Postal code", "Zipcode", "zipcode"]
  const LatitudeHeaders: seq<string> := ["Latitude", "latitude"]
  const LongitudeHeaders: seq<string> := ["Longitude", "longitude"]

  /** A cell that JavaScript's `||` would pick: present and non-empty. */
  predicate Truthy(raw: RawRow, header: string)
  {
    header in raw && raw[header] != ""
  }

  /** `row[h1] || row[h2] || ... || ''`: the value of the first header
      whose cell is truthy, or the empty string when there is none. */
  function Lookup(raw: RawRow, headers: seq<string>): (v: string)
    ensures v != "" <==> exists i :: 0 <= i < |headers| && Truthy(raw, headers[i])
    ensures v != "" ==>
              exists i :: 0 <= i < |headers| && Truthy(raw, headers[i]) && v == raw[headers[i]]
                          && forall j :: 0 <= j < i ==> !Truthy(raw, headers[j])
  {
    if headers == [] then ""
    else if Truthy(raw, headers[0]) then raw[headers[0]]
    else
      var v := Lookup(raw, headers[1..]);
      assert forall i :: 1 <= i < |headers| ==> headers[i] == headers[1..][i - 1];
      v
  }

  function NormalizeRow(raw: RawRow): ExcelRow
  {
    ExcelRow(
      Lookup(raw, SequenceHeaders),
      Lookup(raw, DestinationAddressHeaders),
      Lookup(raw, BairroHeaders),
      Lookup(raw, CityHeaders),
      Lookup(raw, ZipcodeHeaders),
      Lookup(raw, LatitudeHeaders),
      Lookup(raw, LongitudeHeaders))
  }

  /** The mapping step of `readExcelFile`: one canonical row per raw row,
      in the same order. */
  function ReadExcelRows(raws: seq<RawRow>): (rows: seq<ExcelRow>)
    ensures |rows| == |raws|
    ensures forall i :: 0 <= i < |raws| ==> rows[i] == NormalizeRow(raws[i])
  {
    seq(|raws|, i requires 0 <= i < |raws| => NormalizeRow(raws[i]))
  }

  /** The zipcode is taken from "Zipcode/Postal code", then "Zipcode", then
      "zipcode", whichever is first non-empty. */
  lemma ZipcodeHeaderPriority(raw: RawRow)
    ensures NormalizeRow(raw).zipcode ==
              if Truthy(raw, "Zipcode/Postal code") then raw["Zipcode/Postal code"]
              else if Truthy(raw, "Zipcode") then raw["Zipcode"]
              else if Truthy(raw, "zipcode") then raw["zipcode"]
              else ""
  {
    var last := if Truthy(raw, "zipcode") then raw["zipcode"] else "";
    assert ["zipcode"][1..] == [];
    assert Lookup(raw, ["zipcode"]) == last;
    assert ["Zipcode", "zipcode"][1..] == ["zipcode"];
    assert Lookup(raw, ["Zipcode", "zipcode"]) ==
             if Truthy(raw, "Zipcode") then raw["Zipcode"] else last;
    assert ZipcodeHeaders[1..] == ["Zipcode", "zipcode"];
  }

  /** Every other field is read from its capitalised header, then from its
      camel-case one, and is "" when neither cell is non-empty. */
  lemma NormalizeRowAliases(raw: RawRow)
    ensures NormalizeRow(raw).sequence == FirstOfTwo(raw, "Sequence", "sequence")
    ensures NormalizeRow(raw).destinationAddress ==
              FirstOfTwo(raw, "Destination Address", "destinationAddress")
    ensures NormalizeRow(raw).bairro == FirstOfTwo(raw, "Bairro", "bairro")
    ensures NormalizeRow(raw).city == FirstOfTwo(raw, "City", "city")
    ensures NormalizeRow(raw).latitude == FirstOfTwo(raw, "Latitude", "latitude")
    ensures NormalizeRow(raw).longitude == FirstOfTwo(raw, "Longitude", "longitude")
  {
    TwoAliasLookup(raw, "Sequence", "sequence");
    TwoAliasLookup(raw, "Destination Address", "destinationAddress");
    TwoAliasLookup(raw, "Bairro", "bairro");
    TwoAliasLookup(raw, "City", "city");
    TwoAliasLookup(raw, "Latitude", "latitude");
    TwoAliasLookup(raw, "Longitude", "longitude");
  }

  /** `row[a] || row[b] || ''` written out. */
  function FirstOfTwo(raw: RawRow, a: string, b: string): string
  {
    if Truthy(raw, a) then raw[a] else if Truthy(raw, b) then raw[b] else ""
  }

  lemma TwoAliasLookup(raw: RawRow, a: string, b: string)
    ensures Lookup(raw, [a, b]) == FirstOfTwo(raw, a, b)
  {
    assert [a, b][1..] == [b];
    assert [b][1..] == [];
  }
}
