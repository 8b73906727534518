/**
 * The country-code table of the MongoDB country repository: every decoded
 * `{iso_code_2, official_country}` document of the collection becomes an
 * entry from the upper-cased ISO code to the official name. The driver is a
 * parameter: whether `Find` succeeds, what each `Decode` yields (`None` for
 * a document that fails to decode) and whether the cursor reports an error
 * once iteration stops.
 */
module CountryDetail {
  import opened Wrappers
  import opened GoValues
  import opened GoStrings

  /** One document of the collection. */
  datatype CountryData = CountryData(isoCode2: string, officialCountry: string)

  /** The errors `GetCountryCodes` returns. */
  datatype CountryError = FindFailed | CursorFailed

  /** The name stored for a document: its official name, or `unknown` when that is empty. */
  function StoredName(officialCountry: string, unknown: string): string
  {
    if officialCountry == "" then unknown else officialCountry
  }

  /**
   * The table built from the documents read so far: a document that failed
   * to decode or has an empty code adds nothing; otherwise its upper-cased
   * code is set to its stored name, over whatever an earlier document left.
   */
  function CountryTable(documents: seq<Option<CountryData>>, unknown: string): map<string, string>
  {
    if documents == [] then map[]
    else
      var table := CountryTable(documents[..|documents| - 1], unknown);
      match documents[|documents| - 1]
      case None => table
      case Some(d) =>
        if d.isoCode2 == "" then table
        else table[ToUpper(d.isoCode2) := StoredName(d.officialCountry, unknown)]
  }

  /** A document that enters the table, with code `code` once upper-cased. */
  predicate Enters(document: Option<CountryData>, code: string)
  {
    document.Some? && document.value.isoCode2 != "" && ToUpper(document.value.isoCode2) == code
  }

  /** Every key of the table is a non-empty, upper-case code. */
  lemma {:induction false} TableKeysAreUpperCase(documents: seq<Option<CountryData>>, unknown: string)
    ensures forall k :: k in CountryTable(documents, unknown) ==> k != "" && ToUpper(k) == k
  {
    if documents != [] {
      TableKeysAreUpperCase(documents[..|documents| - 1], unknown);
      var last := documents[|documents| - 1];
      if last.Some? && last.value.isoCode2 != "" {
        ToUpperIdempotent(last.value.isoCode2);
      }
    }
  }

  /** A code is in the table exactly when some document enters it. */
  lemma {:induction false} TableHasCodeIffEntered(documents: seq<Option<CountryData>>, unknown: string, code: string)
    ensures code in CountryTable(documents, unknown) <==> exists i :: 0 <= i < |documents| && Enters(documents[i], code)
  {
    if documents != [] {
      var n := |documents| - 1;
      var init := documents[..n];
      TableHasCodeIffEntered(init, unknown, code);
      if Enters(documents[n], code) {
        assert code in CountryTable(documents, unknown);
      } else {
        assert code in CountryTable(documents, unknown) <==> code in CountryTable(init, unknown);
        if code in CountryTable(init, unknown) {
          var i :| 0 <= i < n && Enters(init[i], code);
          assert Enters(documents[i], code);
        }
        if exists i :: 0 <= i < |documents| && Enters(documents[i], code) {
          var i :| 0 <= i < |documents| && Enters(documents[i], code);
          assert i < n && init[i] == documents[i];
        }
      }
    }
  }

  /**
   * The name stored for a code is the stored name of the last document
   * entering it: later duplicates overwrite earlier ones.
   */
  lemma {:induction false} TableIsLastDocumentPerCode(documents: seq<Option<CountryData>>, unknown: string,
                                                      code: string, i: nat)
    requires i < |documents| && Enters(documents[i], code)
    requires forall j :: i < j < |documents| ==> !Enters(documents[j], code)
    ensures code in CountryTable(documents, unknown)
    ensures CountryTable(documents, unknown)[code] == StoredName(documents[i].value.officialCountry, unknown)
  {
    var n := |documents| - 1;
    if i < n {
      var init := documents[..n];
      assert init[i] == documents[i];
      TableIsLastDocumentPerCode(init, unknown, code, i);
      assert !Enters(documents[n], code);
    }
  }

  /** A document that does not enter the table (a decode failure, an empty code) changes nothing, wherever it is. */
  lemma {:induction false} InertDocumentIgnored(before: seq<Option<CountryData>>, document: Option<CountryData>,
                                                after: seq<Option<CountryData>>, unknown: string)
    requires document.None? || document.value.isoCode2 == ""
    ensures CountryTable(before + [document] + after, unknown) == CountryTable(before + after, unknown)
    decreases |after|
  {
    if after == [] {
      assert (before + [document] + after)[..|before| + 1 - 1] == before;
      assert before + after == before;
    } else {
      var init := after[..|after| - 1];
      InertDocumentIgnored(before, document, init, unknown);
      assert (before + [document] + after)[..|before + [document] + after| - 1] == before + [document] + init;
      assert (before + after)[..|before + after| - 1] == before + init;
    }
  }

  /**
   * `GetCountryCodes`: a failing `Find` returns no map and its error;
   * otherwise the documents are folded into the table, and a cursor error
   * after iteration returns the table built so far together with an error.
   */
  method GetCountryCodes(findOk: bool, documents: seq<Option<CountryData>>, cursorOk: bool, unknown: string)
    returns (codes: Option<map<string, string>>, err: Option<CountryError>)
    ensures !findOk ==> codes == None && err == Some(FindFailed)
    ensures findOk ==> codes == Some(CountryTable(documents, unknown))
                       && err == if cursorOk then None else Some(CursorFailed)
  {
    if !findOk {
      return None, Some(FindFailed);
    }
    var countryCodes: map<string, string> := map[];
    for i := 0 to |documents|
      invariant countryCodes == CountryTable(documents[..i], unknown)
    {
      assert documents[..i + 1][..i] == documents[..i];
      var result := documents[i];
      if result.None? {
        continue;
      }
      var countryName := result.value.officialCountry;
      if countryName == "" {
        countryName := unknown;
      }
      if result.value.isoCode2 != "" {
        countryCodes := countryCodes[ToUpper(result.value.isoCode2) := countryName];
      }
    }
    assert documents[..|documents|] == documents;
    if !cursorOk {
      return Some(countryCodes), Some(CursorFailed);
    }
    return Some(countryCodes), None;
  }

  /**
   * `processField`: a string reports `true` and is returned as is; any
   * other value reports `false` and the empty string.
   */
  function ProcessField(field: Value): (r: (bool, string))
    ensures r.0 <==> field.StringVal?
    ensures r.0 ==> StringVal(r.1) == field
    ensures !r.0 ==> r.1 == ""
  {
    match field
    case StringVal(s) => (true, s)
    case _ => (false, "")
  }
}
