/** The records the service works on and the errors it raises. */
module Domain {
  import opened Wrappers

  /** The persisted entity.  `symbol` and `companyName` are nullable, as in
      the Java entity; `price` is a plain number (no NaN, infinities or -0.0). */
  datatype Stock = Stock(id: string, symbol: Option<string>, companyName: Option<string>, price: real)

  /** The creation request.  `price` is a primitive `double`, so it cannot be null. */
  datatype RequestStockDTO = RequestStockDTO(symbol: Option<string>, companyName: Option<string>, price: real)

  /** The three constrained properties of a request. */
  datatype Field = Symbol | CompanyName | Price

  /** The property path a constraint violation reports for a field. */
  function PropertyPath(f: Field): string {
    match f
    case Symbol => "symbol"
    case CompanyName => "companyName"
    case Price => "price"
  }

  /** The six constraints declared on `RequestStockDTO`'s components; a
      violation names the one that failed. */
  datatype Violation =
    | SymbolPatternViolation      // @Pattern on symbol
    | SymbolBlankViolation        // @NotBlank on symbol
    | CompanyNameBlankViolation   // @NotBlank on companyName
    | CompanyNamePatternViolation // @Pattern on companyName
    | PriceNullViolation          // @NotNull on price
    | PriceMinViolation           // @Min(0) on price
  {
    /** The property the constraint is declared on. */
    function Property(): Field {
      match this
      case SymbolPatternViolation | SymbolBlankViolation => Symbol
      case CompanyNameBlankViolation | CompanyNamePatternViolation => CompanyName
      case PriceNullViolation | PriceMinViolation => Price
    }

    /** The `message` attribute of the constraint.  The two longer messages
        are written as concatenated pieces, which keeps the character-level
        proofs about them small; `DeclaredMessages` states them whole. */
    function Message(): string {
      match this
      case SymbolPatternViolation => "Symbol must be 3 letters " + "followed by 1 number"
      case SymbolBlankViolation => "Stock symbol cannot be blank"
      case CompanyNameBlankViolation => "Company name cannot be blank"
      case CompanyNamePatternViolation =>
        "Company name has " + "invalid characters. " + "Alphanumeric characters " + "and white spaces only."
      case PriceNullViolation => "Price cannot be null"
      case PriceMinViolation => "Price must be a positive number"
    }
  }

  /** The two longer messages, as declared. */
  lemma DeclaredMessages()
    ensures SymbolPatternViolation.Message() == "Symbol must be 3 letters followed by 1 number"
    ensures CompanyNamePatternViolation.Message()
         == "Company name has invalid characters. Alphanumeric characters and white spaces only."
  {
    CompanyNameMessageHead();
    CompanyNameMessageMiddle();
    CompanyNameMessageWhole();
  }

  // The company-name message is joined one piece per lemma, each a small proof.
  lemma CompanyNameMessageHead()
    ensures "Company name has " + "invalid characters. " == "Company name has invalid characters. "
  {
  }

  lemma CompanyNameMessageMiddle()
    ensures "Company name has invalid characters. " + "Alphanumeric characters "
         == "Company name has invalid characters. Alphanumeric characters "
  {
  }

  lemma CompanyNameMessageWhole()
    ensures "Company name has invalid characters. Alphanumeric characters " + "and white spaces only."
         == "Company name has invalid characters. Alphanumeric characters and white spaces only."
  {
  }

  /** The exceptions the service and controller raise or catch.
      `ConstraintViolationException` is a subclass of `ValidationException`. */
  datatype Exception =
    | ValidationException(message: string)
    | ConstraintViolationException(message: string, violations: set<Violation>)
    | StockNotFoundException(message: string)
    | OtherException(message: string)  // anything else, e.g. a storage failure

  /** `catch (ValidationException ex)` also catches its subclass. */
  predicate IsValidationException(e: Exception) {
    e.ValidationException? || e.ConstraintViolationException?
  }

  /** `new Stock(data)`: copies the three request fields; the id is the one
      the repository generates when the stock is first saved. */
  function StockFromRequest(data: RequestStockDTO, id: string): (s: Stock)
    ensures s.id == id
    ensures s.symbol == data.symbol && s.companyName == data.companyName && s.price == data.price
  {
    Stock(id, data.symbol, data.companyName, data.price)
  }
}
