# Stock records: validation, service and controller

A Dafny model of the decision logic of the mandacarubroker stock API:

- the field constraints declared on the creation request `RequestStockDTO`
  (`@NotBlank`, `@Pattern`, `@NotNull`, `@Min`) and the set of violations a
  Jakarta validator reports for a request;
- `StockService`: validation that gathers every violation into one
  `ConstraintViolationException` with a `Validation failed. Details: [...]`
  message, and the create, read, update and delete operations over a
  repository modelled as a `map<string, Stock>` from id to stock;
- `StockController`: the HTTP status and body each handler produces from
  what the service returned or raised.

Files, one module each: `wrappers.dfy` (Option/Result/Outcome),
`regex.dfy` (the `java.util.regex` fragment the patterns use, with a
whole-input match), `constraints.dfy` (the Jakarta built-in constraints and
`String.trim()`), `domain.dfy` (Stock, request, violations, exceptions),
`request_stock_dto.dfy` (the request's constraints), `failure_message.dfy`
(the failure message and a decoder for it), `repository.dfy`, `service.dfy`,
`controller.dfy`.

How the source's semantics are read:

- Nullable `String` fields are `Option<string>`. `@Pattern` accepts null, so
  a null symbol draws only "Stock symbol cannot be blank"; an empty or
  whitespace-only symbol draws both symbol violations.
- `@NotBlank` is "not null, and non-empty after `String.trim()`", where trim
  drops leading and trailing characters at or below U+0020.
- `@Pattern` is a whole-input match (`Matcher.matches()`); the anchors of
  `^[a-zA-Z\d\s]+$` are redundant under it. `\d` is `[0-9]` and `\s` is
  `[ \t\n\x0B\f\r]`, Java's defaults.
- `price` is a primitive `double`: it is boxed to a non-null value before
  `@NotNull` sees it, so "Price cannot be null" is never reported. `@Min(0)`
  is inclusive.
- A violation set is streamed in an order the program does not fix; the
  validation method picks any order, and the message is proved to list
  every violation exactly once in that order.
- The service's `deleteStock` does no existence check and the repository's
  `deleteById` ignores an absent id, so the controller answers 204 for an
  absent id too. `StockControllerTest.java:148-158` mocks the service into
  raising `StockNotFoundException`, but this service never raises one, so the
  model follows the code (`Controller.ServeDeleteIsAlwaysNoContent`).
- `StockController.updateStock` has no `catch`: an exception from the service
  propagates, it is not mapped to 400.

## Model

| member | source | states |
|---|---|---|
| Regex.Matches | src/main/java/com/mandacarubroker/domain/stock/RequestStockDTO.java:9-14 | `Matcher.matches()`: the pattern must consume the whole value; read character by character in `Regex.SymbolPatternMatches` and `Regex.CompanyNamePatternMatches` |
| Regex.RepeatClassMatches | src/main/java/com/mandacarubroker/domain/stock/RequestStockDTO.java:9 | a class repeated `{n}` matches exactly the length-n strings of class members |
| Regex.PlusClassMatches | src/main/java/com/mandacarubroker/domain/stock/RequestStockDTO.java:14 | a class followed by `+` matches exactly the non-empty strings of class members |
| Regex.SymbolPatternMatches | src/main/java/com/mandacarubroker/domain/stock/RequestStockDTO.java:9 | `[A-Za-z]{3}\d` matches a whole string iff it is 3 ASCII letters followed by 1 ASCII digit |
| Regex.CompanyNamePatternMatches | src/main/java/com/mandacarubroker/domain/stock/RequestStockDTO.java:14 | `^[a-zA-Z\d\s]+$` matches iff the string is non-empty and every character is an ASCII letter, digit or `\s` space |
| Constraints.TrimStart | src/main/java/com/mandacarubroker/domain/stock/RequestStockDTO.java:10 | the result is the suffix of the input starting at its first character above U+0020; everything dropped is at or below U+0020 |
| Constraints.TrimEnd | src/main/java/com/mandacarubroker/domain/stock/RequestStockDTO.java:10 | the result is the prefix of the input ending at its last character above U+0020; everything dropped is at or below U+0020 |
| Constraints.Trim | src/main/java/com/mandacarubroker/domain/stock/RequestStockDTO.java:10 | `String.trim()`: never lengthens, and what it leaves is empty or starts and ends above U+0020; `Constraints.TrimIsFactor` adds that it is a factor of the input with only characters at or below U+0020 dropped |
| Constraints.TrimIsFactor | src/main/java/com/mandacarubroker/domain/stock/RequestStockDTO.java:10 | `trim()` leaves a contiguous factor of the input that is empty or starts and ends above U+0020, and every character dropped before or after it is at or below U+0020 |
| Constraints.TrimEmptyIff | src/main/java/com/mandacarubroker/domain/stock/RequestStockDTO.java:13 | a string trims to nothing iff every character is at or below U+0020 |
| Constraints.NotBlankIff | src/main/java/com/mandacarubroker/domain/stock/RequestStockDTO.java:10 | `@NotBlank` fails iff the value is null or only characters at or below U+0020 |
| Constraints.NotBlank | src/main/java/com/mandacarubroker/domain/stock/RequestStockDTO.java:10 | `@NotBlank`: null is invalid, and so is a value that trims to nothing; read character by character in `Constraints.NotBlankIff` |
| Constraints.PatternValid | src/main/java/com/mandacarubroker/domain/stock/RequestStockDTO.java:9 | `@Pattern`: null is valid, otherwise the whole value must match; read per field in `Validation.SymbolPatternViolationIff` and `Validation.CompanyNamePatternViolationIff` |
| Constraints.MinValid | src/main/java/com/mandacarubroker/domain/stock/RequestStockDTO.java:18 | `@Min(0)`: null is valid, otherwise the value must be at least the bound, inclusively; read in `Validation.PriceViolationIff` |
| Constraints.NotNull | src/main/java/com/mandacarubroker/domain/stock/RequestStockDTO.java:17 | `@NotNull`: only null is invalid; a primitive `double` is boxed to a non-null value, so `Validation.PriceViolationIff` shows it never fails |
| Domain.Violation.Property | src/main/java/com/mandacarubroker/domain/stock/RequestStockDTO.java:8-20 | each constraint belongs to the component it annotates: two to `symbol`, two to `companyName`, two to `price` |
| Domain.Violation.Message | src/main/java/com/mandacarubroker/domain/stock/RequestStockDTO.java:9-18 | each constraint carries its declared `message` text; `Domain.DeclaredMessages` states the two long ones whole |
| Domain.DeclaredMessages | src/main/java/com/mandacarubroker/domain/stock/RequestStockDTO.java:9-14 | the pattern messages are exactly "Symbol must be 3 letters followed by 1 number" and "Company name has invalid characters. Alphanumeric characters and white spaces only." |
| Domain.PropertyPath | src/main/java/com/mandacarubroker/service/StockService.java:63 | the property path of a violation on a record component is the component name; `FailureMessage.PathIsReadable` reads it back as its field |
| Domain.StockFromRequest | src/main/java/com/mandacarubroker/service/StockService.java:74 | the stock built from a request carries the request's symbol, company name and price under the generated id |
| Validation.Violations | src/main/java/com/mandacarubroker/domain/stock/RequestStockDTO.java:8-20 | `validator.validate(data)`: "Price cannot be null" is never reported; which constraints are reported is stated per constraint by the `Validation.*ViolationIff` lemmas and as a whole by `Validation.NoViolationsIff` |
| Validation.SymbolPatternViolationIff | src/main/java/com/mandacarubroker/domain/stock/RequestStockDTO.java:9 | "Symbol must be 3 letters followed by 1 number" is reported iff the symbol is non-null and not 3 letters then a digit |
| Validation.SymbolBlankViolationIff | src/main/java/com/mandacarubroker/domain/stock/RequestStockDTO.java:10 | "Stock symbol cannot be blank" is reported iff the symbol is null, empty or whitespace-only |
| Validation.PatternValidSymbolIsNotBlank | src/main/java/com/mandacarubroker/domain/stock/RequestStockDTO.java:9-10 | a symbol that passes the pattern is never blank |
| Validation.BlankSymbolDrawsBoth | src/main/java/com/mandacarubroker/domain/stock/RequestStockDTO.java:9-10 | an empty or whitespace-only symbol draws both symbol violations |
| Validation.NullSymbolDrawsBlankOnly | src/main/java/com/mandacarubroker/domain/stock/RequestStockDTO.java:9-10 | a null symbol draws the blank violation but not the pattern one, since `@Pattern` accepts null |
| Validation.CompanyNamePatternViolationIff | src/main/java/com/mandacarubroker/domain/stock/RequestStockDTO.java:14 | the invalid-characters message is reported iff the name is non-null and empty or holds a character outside letters, digits and `\s` |
| Validation.CompanyNameBlankViolationIff | src/main/java/com/mandacarubroker/domain/stock/RequestStockDTO.java:13 | "Company name cannot be blank" is reported iff the name is null, empty or whitespace-only |
| Validation.SpacesOnlyCompanyName | src/main/java/com/mandacarubroker/domain/stock/RequestStockDTO.java:13-14 | a non-empty name of `\s` spaces is blank but passes the pattern |
| Validation.EmptyCompanyName | src/main/java/com/mandacarubroker/domain/stock/RequestStockDTO.java:13-14 | an empty name draws both company-name violations |
| Validation.PriceViolationIff | src/main/java/com/mandacarubroker/domain/stock/RequestStockDTO.java:17-19 | "Price must be a positive number" is reported iff the price is below 0 (0 passes); "Price cannot be null" never is |
| Validation.ViolationsArePerField | src/main/java/com/mandacarubroker/domain/stock/RequestStockDTO.java:8-20 | the violations filed under a field depend on that field's value alone |
| Validation.NoViolationsIff | src/main/java/com/mandacarubroker/domain/stock/RequestStockDTO.java:8-20 | a request has no violation iff its symbol is ticker-shaped, its name is non-blank and of allowed characters, and its price is at least 0 |
| Validation.ValidRequestExample | src/test/java/com/mandacarubroker/domain/stock/RequestStockDTOTest.java:95-101 | ("ABC0", "Test Company", 99.99) has no violation |
| Validation.InvalidSymbolExample | src/test/java/com/mandacarubroker/domain/stock/RequestStockDTOTest.java:26-33 | the violation set of ("invalidSymbol", "Test Company", 99.99) is exactly the symbol pattern violation, so the first one iterated is it |
| Validation.InvalidCompanyNameExample | src/test/java/com/mandacarubroker/domain/stock/RequestStockDTOTest.java:53-61 | the violation set of ("ABC0", "@~!+", 99.99) is exactly the company-name pattern violation, so the first one iterated is it |
| Validation.SeveralViolationsExample | src/main/java/com/mandacarubroker/domain/stock/RequestStockDTO.java:8-20 | a blank symbol and a negative price are reported together, with no short-circuit |
| FailureMessage.Render | src/main/java/com/mandacarubroker/service/StockService.java:63 | `"[%s: %s]"` of a violation is bracketed and four characters longer than its path and message; `FailureMessage.DecodeRenderedItem` inverts it |
| FailureMessage.JoinRendered | src/main/java/com/mandacarubroker/service/StockService.java:62-64 | the `, `-joined items start with `[` and end with `]`; `FailureMessage.DecodeJoined` inverts the join |
| FailureMessage.Message | src/main/java/com/mandacarubroker/service/StockService.java:64 | after the "Validation failed. Details: " prefix the message opens an item with `[`, and it ends with `.`; `FailureMessage.DecodeMessageRoundTrip` inverts it |
| FailureMessage.DecodeRenderedItem | src/main/java/com/mandacarubroker/service/StockService.java:63 | one `[path: message]` item reads back as its property and text, leaving the text after it |
| FailureMessage.DecodeJoined | src/main/java/com/mandacarubroker/service/StockService.java:62-64 | the `, `-joined items read back as the details they came from, in order |
| FailureMessage.DecodeMessageRoundTrip | src/main/java/com/mandacarubroker/service/StockService.java:62-64 | the whole failure message reads back as exactly the listed properties and texts, in order |
| FailureMessage.DetailsAreReadable | src/main/java/com/mandacarubroker/domain/stock/RequestStockDTO.java:9-18 | no declared message contains `]`, so every failure message can be read back |
| Repository.FindById | src/main/java/com/mandacarubroker/service/StockService.java:30 | present exactly for a stored id, with the stored stock |
| Repository.Save | src/main/java/com/mandacarubroker/service/StockService.java:41 | an upsert under the stock's id that leaves every other entry alone and returns the stock |
| Repository.DeleteById | src/main/java/com/mandacarubroker/service/StockService.java:46 | removes exactly the id's entry, absent or not |
| Repository.FindAll | src/main/java/com/mandacarubroker/service/StockService.java:26 | the result lists the store's entries under some ordering of its ids, each id exactly once |
| Service.GetAllStocks | src/main/java/com/mandacarubroker/service/StockService.java:25-27 | returns the store's entries under some ordering of its ids, each id exactly once |
| Service.GetStockById | src/main/java/com/mandacarubroker/service/StockService.java:29-31 | exactly the store lookup; empty for an absent id |
| Service.Updated | src/main/java/com/mandacarubroker/service/StockService.java:35-40 | the stock the update lambda saves keeps the found stock's id and takes symbol and company name from the payload |
| Service.UpdateStock | src/main/java/com/mandacarubroker/service/StockService.java:33-43 | absent id: empty, store unchanged; present id: the result carries the payload's symbol and name verbatim and the price from `changePrice(payload.price, true)`; on a store keyed by each stock's own id, also the id is kept, the result is stored under it and other entries are unchanged |
| Service.DeleteStock | src/main/java/com/mandacarubroker/service/StockService.java:45-47 | returns normally; the id is gone and every other entry is unchanged |
| Service.ValidateRequestStockDTO | src/main/java/com/mandacarubroker/service/StockService.java:59-67 | returns normally iff there is no violation; otherwise raises one exception with every violation and a message listing each exactly once |
| Service.ValidateAndCreateStock | src/main/java/com/mandacarubroker/service/StockService.java:71-76 | an invalid request raises the validation exception, whose message lists every violation once, and leaves the store unchanged; a valid one saves the copied stock once under the fresh id and returns it; a store keyed by each stock's own id stays so |
| Service.UpdateThenGet | src/main/java/com/mandacarubroker/service/StockService.java:33-43 | reading after an update returns what the update returned |
| Service.DeleteThenGet | src/main/java/com/mandacarubroker/service/StockService.java:45-47 | after a delete the id reads as absent and every other id reads as before |
| Service.DeleteIsIdempotent | src/main/java/com/mandacarubroker/service/StockService.java:45-47 | deleting twice has the effect and result of deleting once |
| Service.OperationsPreserveWellFormed | src/main/java/com/mandacarubroker/service/StockService.java:33-47 | update and delete keep every stock stored under its own id |
| Controller.GetAllStocks | src/main/java/com/mandacarubroker/controller/StockController.java:24-28 | always 200 with the list |
| Controller.GetStockById | src/main/java/com/mandacarubroker/controller/StockController.java:30-35 | 200 with the stock iff present, 404 without a body iff absent |
| Controller.CreateStock | src/main/java/com/mandacarubroker/controller/StockController.java:37-45 | 201 with the stock iff created; 400 without a body iff a validation exception was raised; other exceptions propagate |
| Controller.UpdateStock | src/main/java/com/mandacarubroker/controller/StockController.java:47-52 | 200 with the stock iff present, 404 iff absent; exceptions propagate |
| Controller.DeleteStock | src/main/java/com/mandacarubroker/controller/StockController.java:54-62 | 204 iff the service returned normally, 404 iff it raised `StockNotFoundException`; any other exception propagates unchanged |
| Controller.ServeGetById | src/main/java/com/mandacarubroker/controller/StockController.java:30-35 | over a store: 200 with the stored stock iff the id is stored, else 404 |
| Controller.ServeUpdate | src/main/java/com/mandacarubroker/controller/StockController.java:47-52 | over a store: 404 and no write iff the id is absent, else 200 with the saved stock |
| Controller.ServeDeleteIsAlwaysNoContent | src/main/java/com/mandacarubroker/controller/StockController.java:54-62 | over a store: 204 for every id, present or absent, and the id is gone |
| Controller.ServeCreate | src/main/java/com/mandacarubroker/controller/StockController.java:37-45 | over a store: 201 with the saved stock iff the request has no violation, else 400 with the store untouched |

## Left out

- `Stock.changePrice` arithmetic: `Stock.java` is not part of this model, so the price rule is a function-valued parameter (`Service.PriceRule`) applied to the stock after its symbol and name were set. It is assumed to return normally; an exception it raised would propagate through `StockController.updateStock` and is not modelled.
- `Stock(RequestStockDTO)` constructor: assumed to copy the three fields; the id the repository generates on the first save is the `freshId` parameter, assumed not already stored.
- The validator-factory construction failure path (`StockService.java:52-57`), which prints to the console and accepts the request: framework bootstrap and console output.
- Spring, Jakarta and JPA machinery: the repository is a `map` from id to stock; persistence, transactions and storage failures are not modelled (the service model never raises a storage failure).
- Floating-point prices: `price` is a `real`, so NaN, infinities and `-0.0` (which Hibernate's `@Min` check on `double` treats as below 0) are not represented.
- Unicode: the patterns and `trim` are modelled over characters exactly as Java's defaults read them; no other normalisation applies.
- The controller test expecting 400 when the service raises a validation exception during an update: the handler has no `catch`, so the model propagates the exception instead.
- Service.UpdateStock: the kept id, the write under that id and the "every other entry unchanged" frame are stated only for a store where every stock sits under its own id, which `findById` and `save` guarantee in the source; on other stores `save` writes under the found stock's own id.
