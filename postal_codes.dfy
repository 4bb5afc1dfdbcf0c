/**
 * The international postal-code validator: a table from two-letter ISO 3166
 * country codes to anchored postal-code patterns. Regular-expression
 * matching is a parameter of the model (`Accepts`): whether a compiled,
 * anchored pattern matches a postal code.
 */
module PostalCodes {

  import opened Wrappers
  import opened Strings

  type Accepts = (string, string) -> bool

  const InvalidCodeMessage: string := "Invalid 2-digit ISO 3166 country code."

  function UnsupportedMessage(code: string): string
  {
    "Cannot validate postal codes for country: " + code
  }

  /** The pattern as stored: anchored at both ends around one group. */
  function Anchored(pattern: string): string
  {
    "^(" + pattern + ")$"
  }

  /** Every stored code is upper case and at most two characters long. */
  ghost predicate WellKeyed(patterns: map<string, string>)
  {
    forall code :: code in patterns ==> |code| <= 2 && Upper(code) == code
  }

  /**
   * `valid_postal_code` against a table: the code is upper-cased, then
   * refused when longer than two characters, then refused when no pattern
   * is loaded for it; a loaded pattern that accepts the postal code returns
   * the postal code itself.
   */
  function Validate(patterns: map<string, string>, iso: string, postal: string, accepts: Accepts): (r: Result<Option<string>, string>)
    ensures |iso| > 2 <==> r == Err(InvalidCodeMessage)
    ensures r.Err? && |iso| <= 2 ==> Upper(iso) !in patterns && r.error == UnsupportedMessage(Upper(iso))
    ensures r.Ok? <==> |iso| <= 2 && Upper(iso) in patterns
    ensures r.Ok? && r.value.Some? ==> r.value.value == postal && accepts(patterns[Upper(iso)], postal)
    ensures r.Ok? && r.value.None? ==> !accepts(patterns[Upper(iso)], postal)
  {
    var code := Upper(iso);
    if |code| > 2 then Err(InvalidCodeMessage)
    else if code !in patterns then
      assert UnsupportedMessage(code) != InvalidCodeMessage by {
        assert UnsupportedMessage(code)[0] != InvalidCodeMessage[0];
      }
      Err(UnsupportedMessage(code))
    else if accepts(patterns[code], postal) then Ok(Some(postal))
    else Ok(None)
  }

  /** Country codes are case-insensitive. */
  lemma ValidateIgnoresCase(patterns: map<string, string>, iso: string, postal: string, accepts: Accepts)
    ensures Validate(patterns, iso, postal, accepts) == Validate(patterns, Upper(iso), postal, accepts)
    ensures Validate(patterns, Lower(iso), postal, accepts) == Validate(patterns, iso, postal, accepts)
  {
    UpperIdempotent(iso);
    assert Upper(Lower(iso)) == Upper(iso);
  }

  /** The table after `load_country` succeeds. */
  function Loaded(patterns: map<string, string>, iso: string, pattern: string): (r: map<string, string>)
    ensures r.Keys == patterns.Keys + {Upper(iso)}
    ensures r[Upper(iso)] == Anchored(pattern)
    ensures forall code :: code in patterns && code != Upper(iso) ==> r[code] == patterns[code]
  {
    patterns[Upper(iso) := Anchored(pattern)]
  }

  /** Once a country is loaded, its postal codes are judged by its own anchored pattern, whatever case names it. */
  lemma LoadThenValidate(patterns: map<string, string>, iso: string, pattern: string, other: string,
                         postal: string, accepts: Accepts)
    requires |iso| <= 2
    ensures Validate(Loaded(patterns, iso, pattern), iso, postal, accepts) ==
      Ok(if accepts(Anchored(pattern), postal) then Some(postal) else None)
    ensures Upper(other) != Upper(iso) ==>
      Validate(Loaded(patterns, iso, pattern), other, postal, accepts) == Validate(patterns, other, postal, accepts)
  {
  }

  /**
   * Loading a country adds one supported country unless its code was
   * already loaded (in any case), and keeps every stored code upper case
   * and at most two characters long.
   */
  lemma LoadedCount(patterns: map<string, string>, iso: string, pattern: string)
    ensures |Loaded(patterns, iso, pattern).Keys| == |patterns.Keys| + (if Upper(iso) in patterns then 0 else 1)
    ensures WellKeyed(patterns) && |iso| <= 2 ==> WellKeyed(Loaded(patterns, iso, pattern))
  {
    UpperIdempotent(iso);
    if Upper(iso) !in patterns {
      assert Loaded(patterns, iso, pattern).Keys == patterns.Keys + {Upper(iso)};
      assert patterns.Keys * {Upper(iso)} == {};
    } else {
      assert Loaded(patterns, iso, pattern).Keys == patterns.Keys;
    }
  }

  /** A stored code is never refused: its own pattern decides. */
  lemma ValidateStoredCode(patterns: map<string, string>, code: string, postal: string, accepts: Accepts)
    requires WellKeyed(patterns) && code in patterns
    ensures Validate(patterns, code, postal, accepts) == Ok(if accepts(patterns[code], postal) then Some(postal) else None)
  {
  }

  class PostalCodeValidator {
    var patterns: map<string, string>

    ghost predicate Valid()
      reads this
    {
      WellKeyed(patterns)
    }

    /** An empty validator; loading the CLDR data file is not part of this model. */
    constructor ()
      ensures patterns == map[] && Valid()
    {
      patterns := map[];
    }

    /** `load_country`: refuses a code longer than two characters and otherwise loads or replaces its pattern. */
    method LoadCountry(iso: string, pattern: string) returns (r: Result<bool, string>)
      requires Valid()
      modifies this
      ensures Valid()
      ensures |iso| > 2 ==> r == Err(InvalidCodeMessage) && patterns == old(patterns)
      ensures |iso| <= 2 ==> r == Ok(true) && patterns == Loaded(old(patterns), iso, pattern)
    {
      if |iso| > 2 {
        return Err(InvalidCodeMessage);
      }
      UpperIdempotent(iso);
      patterns := patterns[Upper(iso) := Anchored(pattern)];
      return Ok(true);
    }

    /** `supported_countries`: every loaded code once, in the table's own order. */
    method SupportedCountries() returns (codes: seq<string>)
      ensures forall code :: code in codes <==> code in patterns
      ensures forall i :: 0 <= i < |codes| ==> codes[i] !in codes[..i]
    {
      codes := [];
      var rest := patterns.Keys;
      while rest != {}
        invariant rest <= patterns.Keys
        invariant forall code :: code in codes <==> code in patterns && code !in rest
        invariant forall i :: 0 <= i < |codes| ==> codes[i] !in codes[..i]
        decreases |rest|
      {
        var code :| code in rest;
        assert (codes + [code])[..|codes|] == codes;
        codes := codes + [code];
        rest := rest - {code};
      }
    }

    /** `valid_postal_code`, as `Validate` states it over the current table. */
    function ValidPostalCode(iso: string, postal: string, accepts: Accepts): Result<Option<string>, string>
      reads this
    {
      Validate(patterns, iso, postal, accepts)
    }

    /**
     * `valid_postal_code_global`: tries every loaded country in turn and
     * returns the first non-empty result. So the answer is the postal code
     * exactly when it is non-empty and some country's pattern accepts it,
     * whichever order the countries are tried in. No country tried can be
     * refused, since every stored code is a valid one.
     */
    method ValidPostalCodeGlobal(postal: string, accepts: Accepts) returns (r: Option<string>)
      requires Valid()
      ensures r.Some? ==> r.value == postal
      ensures r.Some? <==> postal != "" && exists code :: code in patterns && accepts(patterns[code], postal)
    {
      var codes := SupportedCountries();
      var i := 0;
      while i < |codes|
        invariant 0 <= i <= |codes|
        invariant postal != "" ==> forall j :: 0 <= j < i ==> !accepts(patterns[codes[j]], postal)
      {
        var code := codes[i];
        ValidateStoredCode(patterns, code, postal, accepts);
        var v := ValidPostalCode(code, postal, accepts);
        if v.value.Some? && v.value.value != "" {
          return v.value;
        }
        i := i + 1;
      }
      return None;
    }
  }
}
