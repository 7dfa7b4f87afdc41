/** The address-number extractor of `ExcelProcessor`. */
module AddressNumber {
  import opened Text

  // ---------------------------------------------------------------------
  // Address-number extractor
  // ---------------------------------------------------------------------

  /** The text between the first comma of `address` and the next comma (or
      the end), stated without `split`. */
  function SecondSegment(address: string): string
    requires ',' in address
  {
    var rest := address[IndexOf(address, ',') + 1..];
    if ',' in rest then rest[..IndexOf(rest, ',')] else rest
  }

  /** `extractAddressNumber`: the leading digits of the trimmed second
      comma-separated part, or "" when the address has no comma. */
  function ExtractAddressNumber(address: string): (n: string)
    ensures AllDigits(n)
    ensures ',' !in address ==> n == ""
    ensures ',' in address ==>
              var seg := Trim(SecondSegment(address));
              |n| <= |seg| && n == seg[..|n|] && (|n| == |seg| || !IsDigit(seg[|n|]))
  {
    if ',' in address then LeadingDigits(Trim(SecondSegment(address))) else ""
  }

  /** The same value written as the source computes it:
      `address.split(',')`, then the leading digits of the trimmed second
      part when there is one. */
  lemma ExtractAddressNumberBySplit(address: string)
    ensures var parts := Split(address, ',');
            ExtractAddressNumber(address) == if |parts| > 1 then LeadingDigits(Trim(parts[1])) else ""
  {
    if ',' in address {
      SplitSecondSegment(address);
    }
  }

  lemma SplitSecondSegment(address: string)
    requires ',' in address
    ensures Split(address, ',')[1] == SecondSegment(address)
  {
    var rest := address[IndexOf(address, ',') + 1..];
    SplitFirst(rest, ',');
  }

  /** The first part of a split is the text before the first separator. */
  lemma SplitFirst(s: string, c: char)
    ensures Split(s, c)[0] == if c in s then s[..IndexOf(s, c)] else s
  {
  }

  /** After the first comma and one space, the text up to the next comma
      is `" " + number + u` for some prefix `u` of `rest`. */
  lemma SecondSegmentAfterComma(street: string, number: string, rest: string)
    requires ',' !in street && AllDigits(number)
    ensures var seg := SecondSegment(street + ", " + number + rest);
            |seg| >= 1 + |number| && seg == " " + number + rest[..|seg| - 1 - |number|]
  {
    var a := street + ", " + number + rest;
    assert IndexOf(a, ',') == |street| by {
      assert a[..|street|] == street;
      IndexOfUnique(a, ',', |street|);
    }
    var after := " " + number + rest;
    assert a[|street| + 1..] == after;
    if ',' in after {
      var k := IndexOf(after, ',');
      assert k > |number| by {
        assert after[0] == ' ' && forall i :: 1 <= i <= |number| ==> after[i] == number[i - 1];
      }
      assert after[..k] == " " + number + rest[..k - 1 - |number|];
    } else {
      assert rest[..|rest|] == rest;
    }
  }

  /** `"<street>, <digits><rest>"` has the number `<digits>` when the street
      has no comma and `<rest>` does not continue the digits (as in
      "Rua A, 123 - Apt 4", whose number is "123"). */
  lemma AddressNumberAfterComma(street: string, number: string, rest: string)
    requires ',' !in street && number != [] && AllDigits(number)
    requires rest == [] || !IsDigit(rest[0])
    ensures ExtractAddressNumber(street + ", " + number + rest) == number
  {
    var a := street + ", " + number + rest;
    assert ',' in a by {
      assert a[|street|] == ',';
    }
    var seg := SecondSegment(a);
    assert |seg| >= 1 + |number| by {
      SecondSegmentAfterComma(street, number, rest);
    }
    var u := rest[..|seg| - 1 - |number|];
    assert seg == " " + number + u && (u == [] || !IsDigit(u[0])) by {
      SecondSegmentAfterComma(street, number, rest);
    }
    LeadingDigitsOfTrimmed(number, u);
  }

  /** When the second part starts (after one space) with neither a digit
      nor white space, there is no number (as in "Rua A, Apt B"). */
  lemma AddressNumberNoDigitAfterComma(street: string, rest: string)
    requires ',' !in street
    requires rest == [] || (!IsDigit(rest[0]) && !IsJsWhitespace(rest[0]))
    ensures ExtractAddressNumber(street + ", " + rest) == ""
  {
    var a := street + ", " + rest;
    assert a == street + ", " + "" + rest;
    var seg := SecondSegment(a);
    assert |seg| >= 1 && seg == " " + rest[..|seg| - 1] by {
      SecondSegmentAfterComma(street, "", rest);
    }
    var u := rest[..|seg| - 1];
    assert u == [] || u[0] == rest[0];
    NoDigitAfterSpace(u);
  }

  /** One space, then text that starts with neither a digit nor white
      space: after trimming there are no leading digits. */
  lemma NoDigitAfterSpace(u: string)
    requires u == [] || (!IsDigit(u[0]) && !IsJsWhitespace(u[0]))
    ensures LeadingDigits(Trim(" " + u)) == ""
  {
    var s := " " + u;
    assert s[1..] == u;
    assert TrimStart(s) == u;
    var t := TrimEnd(u);
    assert t == [] || t[0] == u[0];
  }
}
