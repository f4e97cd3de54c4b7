/** The field constraints declared on `RequestStockDTO` and the set of
    violations a Jakarta validator reports for a request. */
module Validation {
  import opened Wrappers
  import opened Regex
  import opened Constraints
  import opened Domain

  /** Every constraint declared on the request. */
  const Declared: set<Violation> := {
    SymbolPatternViolation, SymbolBlankViolation,
    CompanyNameBlankViolation, CompanyNamePatternViolation,
    PriceNullViolation, PriceMinViolation
  }

  /** Whether the request breaks constraint `v`. */
  predicate Violated(data: RequestStockDTO, v: Violation) {
    match v
    case SymbolPatternViolation => !PatternValid(data.symbol, SymbolPattern)   // [A-Za-z]{3}\d
    case SymbolBlankViolation => !NotBlank(data.symbol)
    case CompanyNameBlankViolation => !NotBlank(data.companyName)
    case CompanyNamePatternViolation => !PatternValid(data.companyName, CompanyNamePattern)  // ^[a-zA-Z\d\s]+$
    // a primitive double is boxed to a non-null Double before the constraints see it
    case PriceNullViolation => !NotNull(Some(data.price))
    case PriceMinViolation => !MinValid(Some(data.price), 0)
  }

  /** `validator.validate(data)`: every declared constraint is checked, and
      each one that fails is reported. */
  function Violations(data: RequestStockDTO): (r: set<Violation>)
    ensures r <= Declared
    ensures PriceNullViolation !in r
  {
    set v | v in Declared && Violated(data, v)
  }

  /** Character-level reading of a blank value (null, or only characters at or below U+0020). */
  predicate IsBlank(v: Option<string>) {
    v.None? || forall k :: 0 <= k < |v.value| ==> IsTrimmable(v.value[k])
  }

  /** Character-level reading of the company-name pattern. */
  predicate IsCompanyNameShaped(s: string) {
    |s| > 0 && forall k :: 0 <= k < |s| ==> IsNameChar(s[k])
  }

  /** The symbol pattern violation is reported exactly for a non-null symbol
      that is not three ASCII letters followed by one ASCII digit. */
  lemma SymbolPatternViolationIff(data: RequestStockDTO)
    ensures SymbolPatternViolation in Violations(data)
        <==> data.symbol.Some? && !IsTickerShaped(data.symbol.value)
  {
    assert SymbolPatternViolation in Declared;
    if data.symbol.Some? {
      SymbolPatternMatches(data.symbol.value);
    }
  }

  /** The symbol blank violation is reported exactly for a null, empty or
      whitespace-only symbol. */
  lemma SymbolBlankViolationIff(data: RequestStockDTO)
    ensures SymbolBlankViolation in Violations(data) <==> IsBlank(data.symbol)
  {
    assert SymbolBlankViolation in Declared;
    NotBlankIff(data.symbol);
  }

  /** A symbol that passes the pattern is never blank. */
  lemma PatternValidSymbolIsNotBlank(symbol: string)
    requires Matches(SymbolPattern, symbol)
    ensures NotBlank(Some(symbol))
  {
    SymbolPatternMatches(symbol);
    NotBlankIff(Some(symbol));
  }

  /** An empty or whitespace-only symbol draws both symbol violations
      (a null symbol draws only the blank one, since `@Pattern` accepts null). */
  lemma BlankSymbolDrawsBoth(data: RequestStockDTO)
    requires data.symbol.Some? && IsBlank(data.symbol)
    ensures SymbolBlankViolation in Violations(data) && SymbolPatternViolation in Violations(data)
  {
    SymbolBlankViolationIff(data);
    SymbolPatternViolationIff(data);
  }

  /** A null symbol draws the blank violation only. */
  lemma NullSymbolDrawsBlankOnly(data: RequestStockDTO)
    requires data.symbol.None?
    ensures SymbolBlankViolation in Violations(data) && SymbolPatternViolation !in Violations(data)
  {
    SymbolBlankViolationIff(data);
    SymbolPatternViolationIff(data);
  }

  /** The company-name pattern violation is reported exactly for a non-null
      name that is empty or holds a character other than an ASCII letter,
      digit or `\s` space. */
  lemma CompanyNamePatternViolationIff(data: RequestStockDTO)
    ensures CompanyNamePatternViolation in Violations(data)
        <==> data.companyName.Some? && !IsCompanyNameShaped(data.companyName.value)
  {
    assert CompanyNamePatternViolation in Declared;
    if data.companyName.Some? {
      CompanyNamePatternMatches(data.companyName.value);
    }
  }

  /** The company-name blank violation is reported exactly for a null, empty
      or whitespace-only name. */
  lemma CompanyNameBlankViolationIff(data: RequestStockDTO)
    ensures CompanyNameBlankViolation in Violations(data) <==> IsBlank(data.companyName)
  {
    assert CompanyNameBlankViolation in Declared;
    NotBlankIff(data.companyName);
  }

  /** A non-empty name of `\s` spaces only is blank but passes the pattern. */
  lemma SpacesOnlyCompanyName(data: RequestStockDTO)
    requires data.companyName.Some? && |data.companyName.value| > 0
    requires forall k :: 0 <= k < |data.companyName.value| ==> IsRegexSpace(data.companyName.value[k])
    ensures CompanyNameBlankViolation in Violations(data)
    ensures CompanyNamePatternViolation !in Violations(data)
  {
    CompanyNameBlankViolationIff(data);
    CompanyNamePatternViolationIff(data);
  }

  /** An empty name fails both company-name constraints, since `+` needs a character. */
  lemma EmptyCompanyName(data: RequestStockDTO)
    requires data.companyName == Some("")
    ensures CompanyNameBlankViolation in Violations(data)
    ensures CompanyNamePatternViolation in Violations(data)
  {
    CompanyNameBlankViolationIff(data);
    CompanyNamePatternViolationIff(data);
  }

  /** The price violation is reported exactly for a negative price (`@Min` is
      inclusive), and "Price cannot be null" is never reported. */
  lemma PriceViolationIff(data: RequestStockDTO)
    ensures PriceMinViolation in Violations(data) <==> data.price < 0.0
    ensures PriceNullViolation !in Violations(data)
  {
    assert PriceMinViolation in Declared;
  }

  /** The constraints are per field: a field's violations depend on that field alone. */
  lemma ViolationsArePerField(data: RequestStockDTO, other: RequestStockDTO, f: Field)
    requires f == Symbol ==> data.symbol == other.symbol
    requires f == CompanyName ==> data.companyName == other.companyName
    requires f == Price ==> data.price == other.price
    ensures forall v: Violation :: v.Property() == f ==> (v in Violations(data) <==> v in Violations(other))
  {
    forall v: Violation | v.Property() == f
      ensures v in Violations(data) <==> v in Violations(other)
    {
      assert Violated(data, v) == Violated(other, v);
    }
  }

  /** The accepted shape of a request, field by field. */
  predicate IsWellShaped(data: RequestStockDTO) {
    && data.symbol.Some? && IsTickerShaped(data.symbol.value)
    && data.companyName.Some? && IsCompanyNameShaped(data.companyName.value)
    && !IsBlank(data.companyName)
    && data.price >= 0.0
  }

  /** A request is accepted exactly when every field has the documented shape. */
  lemma NoViolationsIff(data: RequestStockDTO)
    ensures Violations(data) == {}
        <==> && data.symbol.Some? && IsTickerShaped(data.symbol.value)
             && data.companyName.Some? && IsCompanyNameShaped(data.companyName.value)
             && !IsBlank(data.companyName)
             && data.price >= 0.0
  {
    if Violations(data) == {} {
      AcceptedIsWellShaped(data);
    } else if IsWellShaped(data) {
      WellShapedIsAccepted(data);
    }
  }

  lemma AcceptedIsWellShaped(data: RequestStockDTO)
    requires Violations(data) == {}
    ensures IsWellShaped(data)
  {
    SymbolBlankViolationIff(data);
    SymbolPatternViolationIff(data);
    CompanyNamePatternViolationIff(data);
    CompanyNameBlankViolationIff(data);
    PriceViolationIff(data);
  }

  lemma WellShapedIsAccepted(data: RequestStockDTO)
    requires IsWellShaped(data)
    ensures Violations(data) == {}
  {
    TickerIsNotBlank(data.symbol.value);
    SymbolPatternViolationIff(data);
    SymbolBlankViolationIff(data);
    CompanyNamePatternViolationIff(data);
    CompanyNameBlankViolationIff(data);
    PriceViolationIff(data);
  }

  /** A ticker starts with a letter, which lies above U+0020. */
  lemma TickerIsNotBlank(s: string)
    requires IsTickerShaped(s)
    ensures !IsBlank(Some(s))
  {
    assert !IsTrimmable(s[0]);
  }

  /** ("ABC0", "Test Company", 99.99) is accepted. */
  lemma ValidRequestExample()
    ensures Violations(RequestStockDTO(Some("ABC0"), Some("Test Company"), 99.99)) == {}
  {
    var data := RequestStockDTO(Some("ABC0"), Some("Test Company"), 99.99);
    NoViolationsIff(data);
    assert !IsTrimmable(data.companyName.value[0]);
  }

  /** "invalidSymbol" draws the symbol pattern violation and nothing else. */
  lemma InvalidSymbolExample()
    ensures Violations(RequestStockDTO(Some("invalidSymbol"), Some("Test Company"), 99.99)) == {SymbolPatternViolation}
  {
    var data := RequestStockDTO(Some("invalidSymbol"), Some("Test Company"), 99.99);
    TestCompanyIsAccepted(data);
    SymbolPatternViolationIff(data);
    SymbolBlankViolationIff(data);
    PriceViolationIff(data);
    assert !IsTrimmable(data.symbol.value[0]);
    OnlyViolation(data, SymbolPatternViolation);
  }

  /** The company name the request tests use, "Test Company", draws no violation. */
  lemma TestCompanyIsAccepted(data: RequestStockDTO)
    requires data.companyName == Some("Test Company")
    ensures CompanyNamePatternViolation !in Violations(data)
    ensures CompanyNameBlankViolation !in Violations(data)
  {
    CompanyNamePatternViolationIff(data);
    CompanyNameBlankViolationIff(data);
    assert !IsTrimmable(data.companyName.value[0]);
  }

  /** "@~!+" draws the company-name pattern violation and nothing else. */
  lemma InvalidCompanyNameExample()
    ensures Violations(RequestStockDTO(Some("ABC0"), Some("@~!+"), 99.99)) == {CompanyNamePatternViolation}
  {
    var data := RequestStockDTO(Some("ABC0"), Some("@~!+"), 99.99);
    SymbolPatternViolationIff(data);
    SymbolBlankViolationIff(data);
    CompanyNamePatternViolationIff(data);
    CompanyNameBlankViolationIff(data);
    PriceViolationIff(data);
    assert !IsTrimmable(data.symbol.value[0]);
    assert !IsTrimmable(data.companyName.value[0]);
    assert !IsNameChar(data.companyName.value[0]);
    OnlyViolation(data, CompanyNamePatternViolation);
  }

  /** The violations are exactly `{v}` when `v` is reported and every other
      declared constraint holds. */
  lemma OnlyViolation(data: RequestStockDTO, v: Violation)
    requires v in Violations(data)
    requires forall w :: w in Declared && w != v ==> w !in Violations(data)
    ensures Violations(data) == {v}
  {
  }

  /** A blank symbol and a negative price are reported together. */
  lemma SeveralViolationsExample()
    ensures {SymbolBlankViolation, SymbolPatternViolation, PriceMinViolation}
         <= Violations(RequestStockDTO(Some("    "), Some("Test Company"), -0.1))
  {
    var data := RequestStockDTO(Some("    "), Some("Test Company"), -0.1);
    BlankSymbolDrawsBoth(data);
    PriceViolationIff(data);
  }
}
