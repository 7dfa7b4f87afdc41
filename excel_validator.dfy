/** The batch validator of `ExcelProcessor` (`validateExcelData`). */
module ExcelValidator {
  import opened ExcelRows

  // ---------------------------------------------------------------------
  // Batch validator
  // ---------------------------------------------------------------------

  datatype Validation = Valid | Invalid(message: string)

  const EmptyFileMessage := "Arquivo vazio ou sem dados"

  const RequiredFields: seq<string> := ["latitude", "longitude", "destinationAddress"]

  function MissingFieldMessage(field: string): string
  {
    "Campo obrigatório \"" + field + "\" não encontrado no arquivo"
  }

  /** `firstRow[field]`; a name that is not a field reads as empty. */
  function FieldValue(row: ExcelRow, field: string): string
  {
    match field
    case "sequence" => row.sequence
    case "destinationAddress" => row.destinationAddress
    case "bairro" => row.bairro
    case "city" => row.city
    case "zipcode" => row.zipcode
    case "latitude" => row.latitude
    case "longitude" => row.longitude
    case _ => ""
  }

  /** What `validateExcelData` answers: an empty batch is rejected; otherwise
      only the first row is looked at, and the first of `RequiredFields`
      whose value there is empty is named in the message. */
  function DataValidation(data: seq<ExcelRow>): (v: Validation)
    ensures data == [] ==> v == Invalid(EmptyFileMessage)
    ensures v == Valid <==>
              data != [] && forall i :: 0 <= i < |RequiredFields| ==> FieldValue(data[0], RequiredFields[i]) != ""
    ensures data != [] && v.Invalid? ==>
              exists i :: 0 <= i < |RequiredFields| && v == Invalid(MissingFieldMessage(RequiredFields[i]))
                          && FieldValue(data[0], RequiredFields[i]) == ""
                          && forall j :: 0 <= j < i ==> FieldValue(data[0], RequiredFields[j]) != ""
  {
    if data == [] then Invalid(EmptyFileMessage)
    else
      assert RequiredFields[0] == "latitude" && FieldValue(data[0], "latitude") == data[0].latitude;
      assert RequiredFields[1] == "longitude" && FieldValue(data[0], "longitude") == data[0].longitude;
      assert RequiredFields[2] == "destinationAddress"
             && FieldValue(data[0], "destinationAddress") == data[0].destinationAddress;
      if data[0].latitude == "" then Invalid(MissingFieldMessage("latitude"))
      else if data[0].longitude == "" then Invalid(MissingFieldMessage("longitude"))
      else if data[0].destinationAddress == "" then Invalid(MissingFieldMessage("destinationAddress"))
      else Valid
  }

  /** `validateExcelData`: the loop over the required fields with its early
      return. */
  method ValidateExcelData(data: seq<ExcelRow>) returns (v: Validation)
    ensures v == DataValidation(data)
  {
    if |data| == 0 {
      return Invalid(EmptyFileMessage);
    }
    var firstRow := data[0];
    for i := 0 to |RequiredFields|
      invariant forall j :: 0 <= j < i ==> FieldValue(firstRow, RequiredFields[j]) != ""
    {
      var field := RequiredFields[i];
      if FieldValue(firstRow, field) == "" {
        return Invalid(MissingFieldMessage(field));
      }
    }
    return Valid;
  }

  /** Rows after the first never influence validation. */
  lemma OnlyFirstRowValidated(first: ExcelRow, rest: seq<ExcelRow>, rest': seq<ExcelRow>)
    ensures DataValidation([first] + rest) == DataValidation([first] + rest')
  {
  }
}
