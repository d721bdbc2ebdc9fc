# Beer catalogue API: a Dafny model of its service layer

The modelled system is a small Spring Boot REST API for beers. It has two kinds of service:

- **`BeerService`** provides full CRUD over the `beers` table: list, get by id, create, full replace (PUT), partial update (PATCH) and delete. On create and update it resolves the brewery, style and category that a request names by id against their own tables.
- **`BreweryService`, `StyleService` and `CategoryService`** are read-only. Each lists its table and looks a row up by id.

Every lookup of an unknown id fails with a `ResourceNotFoundException`. Its Spanish message is the entity's prefix followed by the id, for example `Cerveza no encontrada con id: 7`.

The model follows the source file by file:

- `entity.dfy` holds the `Beer` entity and the column constraints of its table: `name` NOT NULL and at most 150 characters.
- `beer_dto.dfy` and `brewery_dto.dfy` hold the request records and their Bean Validation constraints as predicates.
- The `brewery_dto.dfy` constraints include the phone `@Pattern`, which `phone_pattern.dfy` models as a backtracking matcher. That matcher is proved equal to a declarative reading of the pattern.
- `errors.dfy` holds the not-found errors and their messages.
- `store.dfy` holds the repository reads the services share.
- `beer_service.dfy` holds the beer service. It is a class whose `beers` table and identity counter the write operations update.
- `brewery_service.dfy`, `style_service.dfy` and `category_service.dfy` hold the three read-only services. They are pure functions.
- `java_text.dfy` holds the pieces of `java.lang.String` behaviour that validation and messages depend on:
  - `length()` in UTF-16 units;
  - the blank test of `@NotBlank`;
  - decimal rendering of an `Integer`.
- `scenarios.dfy` replays each case of the repository's beer service unit tests (`BeerServiceTest`) against the contracts, with one concrete mapper. It adds one case of its own, for the foreign-key refusal below.

Some modelling decisions:

- **Mappers.** The MapStruct mappers are not part of this model. Each service takes its mapper as a parameter: a record of total functions. Every property is stated for every choice of mapper.
- **Transactions.** Each operation runs in one transaction, so on any failure the model leaves the store exactly as it was.
- **Validation preconditions.** The controller validates POST and PUT bodies (`@Valid`), so `CreateBeer` and `UpdateBeer` require `ValidBeerDTO`. PATCH bodies are not validated, so `PartialUpdateBeer` accepts any request.
  - This differs from the HTTP contract described for the API, which promises a 400 for an invalid PATCH body. The model follows the code.
  - As a result, a partial update can store an abv above 100 (`Scenarios.PartialUpdateCases`).
- **Save-time rejections.** Writing a row can fail even when every reference the request names resolves:
  - a null name or a name longer than the 150-unit column is refused (`Rejected(NameNull)`, `Rejected(NameTooLong)`);
  - on update, changing the identifier of a loaded entity is refused (`Rejected(IdentifierAltered)`);
  - on create, a reference that the mapper set for an id the request omits must name a row of its table. The `beers` table holds only the id in its join column, so any other reference is refused (`Rejected(UnknownReference)`).
  The name rejections depend on the mapper. When the mapper copies the validated name into the entity, a create or PUT cannot hit them (`BeerService.ValidNameStorable`). A PATCH can, whatever the mapper.
- **Join columns.** A join column stores only an id. So the row written is the entity with each reference replaced by its table's record under that id (`BeerService.Joined`), and a later lookup returns that row. `createBeer` maps back the saved entity itself. The two agree when the entity's references already are table records (`BeerService.Linked`).
- **Blank names.** `@NotBlank` holds when `String.trim()` leaves a non-empty string: characters up to U+0020 count as blank.
- **Identity.** The identity column is a counter, `nextBeerId`. A created beer gets its current value, whatever id the mapper copied from the request.
- **Listing order.** `findAll()` is modelled as returning rows in ascending id order.

## Model

| member | source | states |
|---|---|---|
| Entity.ColumnViolation | src/main/java/com/kata/api/entity/Beer.java:18-19 | a beer row is refused by its columns exactly when its name is null or longer than 150 UTF-16 units, and then for that reason only |
| Entity.UpdateViolation | src/main/java/com/kata/api/entity/Beer.java:14-19 | writing back an entity loaded under `key` succeeds exactly when its id is still `key` and the row fits the columns; a changed id is reported as such |
| JavaText.Utf16Length | src/main/java/com/kata/api/dto/BeerDTO.java:15 | the length `@Size` and the column check compare is between the character count and twice it, and positive for a non-empty string |
| JavaText.BmpLength | src/main/java/com/kata/api/dto/BeerDTO.java:15 | for text of Basic Multilingual Plane characters that length is the character count |
| JavaText.Digits | src/main/java/com/kata/api/service/BeerService.java:46 | the decimal digits of a natural number are non-empty, all digits, with no leading zero |
| JavaText.DecimalString | src/main/java/com/kata/api/service/BeerService.java:46 | the rendering of an id in a message is non-empty and starts with `-` exactly for negative ids |
| JavaText.DigitsRoundTrip | src/main/java/com/kata/api/service/BeerService.java:46 | reading back the digits of a natural number gives the number |
| JavaText.DecimalRoundTrip | src/main/java/com/kata/api/service/BeerService.java:46 | parsing the rendering of any integer id gives the id back |
| JavaText.DecimalInjective | src/main/java/com/kata/api/service/BeerService.java:46 | distinct ids render differently |
| Errors.Message | src/main/java/com/kata/api/service/BeerService.java:45-46 | a not-found message is the entity's Spanish prefix followed by the decimal id |
| Errors.MessageIdentifies | src/main/java/com/kata/api/service/BeerService.java:45-46 | equal not-found messages name the same kind of entity and the same id, so the message identifies the failed lookup |
| Store.FindById | src/main/java/com/kata/api/service/BeerService.java:45-46 | `findById(id).orElseThrow(...)` succeeds exactly for a stored id, returns that row, and otherwise fails with not-found for that kind and id |
| Store.Least | src/main/java/com/kata/api/service/BeerService.java:36 | a non-empty set of ids has a member no larger than any other |
| Store.SortedIds | src/main/java/com/kata/api/service/BeerService.java:36 | the listing order holds every stored id exactly once, strictly ascending |
| Store.FindAll | src/main/java/com/kata/api/service/BeerService.java:36 | `findAll()` returns one row per stored id, the row at position i being the one stored under the i-th id in order |
| Store.FindAllCovers | src/main/java/com/kata/api/service/BeerService.java:36 | every stored row appears in the listing at the position of its id |
| Store.MapAll | src/main/java/com/kata/api/service/BeerService.java:35-39 | a service listing: one mapped record per stored row, the i-th from the i-th id in listing order |
| Store.Lookup | src/main/java/com/kata/api/service/BeerService.java:44-47 | a service lookup: the mapped row for a stored id, otherwise not-found for that kind and id |
| Store.ListingAgreesWithLookup | src/main/java/com/kata/api/service/BeerService.java:33-48 | for every table and mapper, a record is in the listing exactly when some lookup returns it; the four services instantiate this |
| PhonePattern.Run | src/main/java/com/kata/api/dto/BreweryDTO.java:27 | the run a repeated class can take is within the input and the maximum, all in the class, and stops only at the maximum, the end or a character outside the class |
| PhonePattern.ReachBounds | src/main/java/com/kata/api/dto/BreweryDTO.java:27 | a prefix is all in a class exactly when it is no longer than that run |
| PhonePattern.UpwardSound | src/main/java/com/kata/api/dto/BreweryDTO.java:27 | a reluctant piece trying ever longer runs finds a match exactly when some run length in range allows the rest to match |
| PhonePattern.DownwardSound | src/main/java/com/kata/api/dto/BreweryDTO.java:27 | a greedy piece trying ever shorter runs finds a match exactly when some run length in range allows the rest to match |
| PhonePattern.AcceptsMatches | src/main/java/com/kata/api/dto/BreweryDTO.java:27 | the backtracking matcher of the phone pattern accepts exactly the strings that some split into runs matches |
| PhonePattern.Greedy | src/main/java/com/kata/api/dto/BreweryDTO.java:27 | the pattern with every quantifier made greedy has the same pieces otherwise |
| PhonePattern.MatchesIgnoresReluctance | src/main/java/com/kata/api/dto/BreweryDTO.java:27 | making quantifiers greedy does not change which strings match |
| PhonePattern.ReluctanceIrrelevant | src/main/java/com/kata/api/dto/BreweryDTO.java:27 | the reluctant `{1,3}?` of the phone pattern changes which match is found but not whether one is |
| PhonePattern.MatchLengthBounds | src/main/java/com/kata/api/dto/BreweryDTO.java:27 | a matching string is no shorter than the sum of the minimum repetitions and no longer than the sum of the maxima |
| PhonePattern.PhoneLengths | src/main/java/com/kata/api/dto/BreweryDTO.java:27 | the phone pattern needs 4 to 26 characters |
| PhonePattern.MatchAlphabet | src/main/java/com/kata/api/dto/BreweryDTO.java:27 | a matching string consists of digits, `+`, `-`, `.`, parentheses and Java whitespace only |
| PhonePattern.PhoneShape | src/main/java/com/kata/api/dto/BreweryDTO.java:27 | a phone number the pattern accepts has 4 to 26 characters, all from that alphabet |
| PhonePattern.LeadingRun | src/main/java/com/kata/api/dto/BreweryDTO.java:27 | after an optional single piece, a mandatory one makes the match start with its class, or with one character of the first class and then its class |
| PhonePattern.PhoneLeadingDigit | src/main/java/com/kata/api/dto/BreweryDTO.java:27 | an accepted phone number begins with a digit, or with `+` and a digit |
| PhonePattern.MatchesStep | src/main/java/com/kata/api/dto/BreweryDTO.java:27 | a run `a` for the first piece followed by a match `b` of the rest is a match of `a + b` |
| PhonePattern.MatchesSkip | src/main/java/com/kata/api/dto/BreweryDTO.java:27 | an optional piece may match nothing |
| PhonePattern.SubscriberMatches | src/main/java/com/kata/api/dto/BreweryDTO.java:27 | ` 123 456` matches the last four pieces of the pattern |
| PhonePattern.NationalMatches | src/main/java/com/kata/api/dto/BreweryDTO.java:27 | ` 600 123 456` matches the pattern from its third piece on, both parentheses omitted |
| PhonePattern.SpacedInternationalAccepted | src/main/java/com/kata/api/dto/BreweryDTO.java:27 | `+34 600 123 456` is an accepted phone number |
| BeerDto.ValidName | src/main/java/com/kata/api/dto/BeerDTO.java:14-16 | a name is present, not blank after trimming, and 3 to 150 UTF-16 units long |
| BeerDto.ValidDescription | src/main/java/com/kata/api/dto/BeerDTO.java:18-19 | a description is absent or at most 1000 UTF-16 units long |
| BeerDto.InRange | src/main/java/com/kata/api/dto/BeerDTO.java:21-27 | a value is absent or lies between 0.0 and the maximum, both inclusive |
| BeerDto.ValidBeerDTO | src/main/java/com/kata/api/dto/BeerDTO.java:12-35 | what `@Valid` checks: the name, description, abv (up to 100.0) and ibu (up to 1000.0) constraints together |
| BreweryDto.ValidName | src/main/java/com/kata/api/dto/BreweryDTO.java:14-16 | a brewery name is present, not blank after trimming, and 2 to 100 UTF-16 units long |
| BreweryDto.AtMost | src/main/java/com/kata/api/dto/BreweryDTO.java:18-25 | a nullable field is absent or within its `@Size` maximum |
| BreweryDto.ValidPhone | src/main/java/com/kata/api/dto/BreweryDTO.java:27-29 | a phone is null, empty or accepted by the phone pattern |
| BreweryDto.ValidBreweryDTO | src/main/java/com/kata/api/dto/BreweryDTO.java:12-35 | the name, address (255), city (100), country (100), phone and description (2000) constraints together |
| PhonePattern.Matches | src/main/java/com/kata/api/dto/BreweryDTO.java:27 | the declarative language of a sequence of quantified character classes: some split into runs, each within its bounds and all in its class |
| PhonePattern.Accepts | src/main/java/com/kata/api/dto/BreweryDTO.java:27 | the backtracking matcher over the pattern `Phone`, trying reluctant pieces shortest first and greedy ones longest first |
| JavaText.Blank | src/main/java/com/kata/api/dto/BeerDTO.java:14 | `@NotBlank` fails exactly when every character is at most U+0020, as `trim()` leaves nothing |
| Errors.Prefix | src/main/java/com/kata/api/service/BeerService.java:46 | the Spanish message prefix for each kind of entity, as at lines 46, 58, 64 and 70 |
| BreweryDto.NameBoundaries | src/main/java/com/kata/api/dto/BreweryDTO.java:14-16 | a brewery name of 2 or 100 characters passes, 1 or 101 fails, and a null or blank name fails |
| BreweryDto.PhoneShapeWhenValid | src/main/java/com/kata/api/dto/BreweryDTO.java:27-29 | a non-empty phone that passes validation has 4 to 26 characters, all from the pattern's alphabet |
| BreweryDto.ValidPhoneIff | src/main/java/com/kata/api/dto/BreweryDTO.java:27-29 | a phone passes exactly when it is empty or matches the pattern |
| BreweryDto.PhoneExamples | src/main/java/com/kata/api/dto/BreweryDTO.java:27-29 | `+34 600 123 456`, null and the empty string pass; `(555) 123-4567` is refused |
| BeerDto.NameBoundaries | src/main/java/com/kata/api/dto/BeerDTO.java:14-16 | a beer name of 3 or 150 characters passes, 2 or 151 fails, a one-letter name fails, and a null or blank name fails |
| BeerDto.RangeBoundaries | src/main/java/com/kata/api/dto/BeerDTO.java:21-27 | abv passes from 0.0 to 100.0 inclusive and ibu up to 1000.0, an absent value passes, values just outside fail |
| BeerDto.ValidityIgnoresUnannotated | src/main/java/com/kata/api/dto/BeerDTO.java:12-35 | validity depends only on name, description, abv and ibu; ids and nested records are not checked |
| BeerDto.ValidHasName | src/main/java/com/kata/api/dto/BeerDTO.java:14-16 | a valid request carries a name of 2 to 150 characters (3 to 150 UTF-16 units, a supplementary character counting twice) |
| BeerService.KeyedById | src/main/java/com/kata/api/service/BeerService.java:56-70 | every record of the brewery, style and category tables sits under its own id, as `findById` returns it |
| BeerService.Joinable | src/main/java/com/kata/api/entity/Beer.java:30-40 | the foreign keys accept a row exactly when each join column is null or names a row of its table |
| BeerService.Linked | src/main/java/com/kata/api/entity/Beer.java:30-40 | each reference of a row is the record its table holds under the reference's id |
| BeerService.Joined | src/main/java/com/kata/api/entity/Beer.java:30-40 | writing a row changes only its references, keeps which are present, makes them table records when the tables are keyed by id, and leaves a linked row as it is |
| BeerService.ValidNameStorable | src/main/java/com/kata/api/dto/BeerDTO.java:14-16 | a row carrying the name of a validated request fits the NOT NULL, 150-unit name column of Beer.java:18 |
| BeerService.Resolves | src/main/java/com/kata/api/service/BeerService.java:56-58 | a request's reference id is omitted or names a row of its table |
| BeerService.Attached | src/main/java/com/kata/api/service/BeerService.java:56-60 | the reference left on the entity: the looked-up record for a named id, otherwise the given fallback |
| BeerService.Merge | src/main/java/com/kata/api/service/BeerService.java:124-135 | a PATCH field takes the supplied value and keeps the stored one when omitted |
| BeerService.MissingReference | src/main/java/com/kata/api/service/BeerService.java:56-72 | the not-found error of the first of brewery, style and category whose named id is unknown, or none |
| BeerService.BeerService.Valid | src/main/java/com/kata/api/entity/Beer.java:14-40 | the store invariant: reference tables keyed by id; every beer row under its own id, below the identity counter, fitting the columns and pointing only at table records |
| BeerService.BeerService.Attach | src/main/java/com/kata/api/service/BeerService.java:56-72 | the entity after the lookups: named references are table records, omitted ones cleared (PUT, lines 87-110) or kept (create, PATCH) |
| BeerService.BeerService.AttachKeepsLinked | src/main/java/com/kata/api/service/BeerService.java:87-110 | the lookups keep a row pointing only at table records, so PUT and PATCH preserve the store invariant |
| BeerService.BeerService.constructor | src/main/java/com/kata/api/service/BeerService.java:25-31 | a service built over tables that satisfy the store invariant satisfies it |
| BeerService.BeerService.GetAllBeers | src/main/java/com/kata/api/service/BeerService.java:33-40 | one record per stored beer, the i-th being the mapped beer under the i-th id in listing order; an empty table lists nothing |
| BeerService.BeerService.GetBeerById | src/main/java/com/kata/api/service/BeerService.java:42-48 | succeeds exactly for a stored id with the mapped beer, and otherwise fails with not-found for that id |
| BeerService.BeerService.ListingAgreesWithLookup | src/main/java/com/kata/api/service/BeerService.java:33-48 | a record is in the listing exactly when a lookup by some id returns it |
| BeerService.BeerService.AttachReferences | src/main/java/com/kata/api/service/BeerService.java:55-72 | brewery, style and category ids are looked up in that order; the first unknown one is the error; otherwise each named reference is attached and each omitted one is cleared (PUT) or kept (create, PATCH); the three lookups recur at lines 87-110 and 137-153 |
| BeerService.BeerService.CreateBeer | src/main/java/com/kata/api/service/BeerService.java:50-77 | fails with the first unresolved reference named by the request, then with the column violation of the entity, then with a reference that names no row of its table, each leaving the store unchanged; otherwise writes the entity, its join columns resolved to table records, under the next identity value, which was unused, and advances the counter; it returns the mapped saved entity, a later lookup returns the mapped written row, and the two agree when the entity's references are table records |
| BeerService.BeerService.UpdateBeer | src/main/java/com/kata/api/service/BeerService.java:79-115 | fails with not-found for an unknown id, then with the first unresolved reference, then with a save rejection, each leaving the store unchanged; otherwise replaces only that row with the mapper's update of it, whose references are exactly those the request names, the omitted ones cleared |
| BeerService.BeerService.PartialUpdateBeer | src/main/java/com/kata/api/service/BeerService.java:117-158 | fails with not-found, then the first unresolved reference, then a too-long name, each leaving the store unchanged; otherwise replaces only that row, each of name, description, abv, ibu and the references taking the supplied value and keeping the stored one when omitted |
| BeerService.BeerService.DeleteBeer | src/main/java/com/kata/api/service/BeerService.java:160-167 | succeeds exactly for a stored id and removes just that row; otherwise fails with not-found and changes nothing; either way the id is no longer found |
| BreweryService.GetAllBreweries | src/main/java/com/kata/api/service/BreweryService.java:24-31 | one record per stored brewery, in listing order; an empty table lists nothing |
| BreweryService.GetBreweryById | src/main/java/com/kata/api/service/BreweryService.java:33-39 | succeeds exactly for a stored id with the mapped brewery, otherwise not-found for that brewery id |
| BreweryService.ListingAgreesWithLookup | src/main/java/com/kata/api/service/BreweryService.java:24-39 | a record is in the listing exactly when a lookup by some id returns it |
| StyleService.GetAllStyles | src/main/java/com/kata/api/service/StyleService.java:24-31 | one record per stored style, in listing order; an empty table lists nothing |
| StyleService.GetStyleById | src/main/java/com/kata/api/service/StyleService.java:33-39 | succeeds exactly for a stored id with the mapped style, otherwise not-found for that style id |
| StyleService.ListingAgreesWithLookup | src/main/java/com/kata/api/service/StyleService.java:24-39 | a record is in the listing exactly when a lookup by some id returns it |
| CategoryService.GetAllCategories | src/main/java/com/kata/api/service/CategoryService.java:24-31 | one record per stored category, in listing order; an empty table lists nothing |
| CategoryService.GetCategoryById | src/main/java/com/kata/api/service/CategoryService.java:33-39 | succeeds exactly for a stored id with the mapped category, otherwise not-found for that category id |
| CategoryService.ListingAgreesWithLookup | src/main/java/com/kata/api/service/CategoryService.java:24-39 | a record is in the listing exactly when a lookup by some id returns it |
| Scenarios.NewService | src/test/java/com/kata/api/service/BeerServiceTest.java:58-96 | the test fixture: a fresh service over one brewery, style and category with id 1 |
| Scenarios.TestRequestAccepted | src/test/java/com/kata/api/service/BeerServiceTest.java:86-95 | the test request passes validation and maps to a storable entity |
| Scenarios.NotFoundMessages | src/test/java/com/kata/api/service/BeerServiceTest.java:139-141 | the messages for beer 9999 and brewery 9999 begin with `Cerveza no encontrada` and `Cervecería no encontrada` |
| Scenarios.TestBeerStorable | src/test/java/com/kata/api/service/BeerServiceTest.java:75-84 | the test beer fits the columns and points at the test references |
| Scenarios.CreateAttachesTestReferences | src/test/java/com/kata/api/service/BeerServiceTest.java:145-161 | the mapped test request with its references attached is the test beer up to its id |
| Scenarios.CreateCases | src/test/java/com/kata/api/service/BeerServiceTest.java:145-161 | creating the test request stores the test beer under id 1, returns its record, and a lookup of id 1 returns the same |
| Scenarios.GetAllCases | src/test/java/com/kata/api/service/BeerServiceTest.java:99-115 | listing a table of the test beer gives one record, with id 1 and name `Test Beer` |
| Scenarios.GetByIdCases | src/test/java/com/kata/api/service/BeerServiceTest.java:118-131 | looking up id 1 gives the test beer's record, with id 1 and name `Test Beer` |
| Scenarios.UpdateWritesBack | src/test/java/com/kata/api/service/BeerServiceTest.java:177-192 | the test request resolves, and the mapper's copy of it into the test beer is the test beer, a row accepted under id 1 |
| Scenarios.SameRowWritten | src/test/java/com/kata/api/service/BeerServiceTest.java:177-192 | rewriting the test beer's row with the same fields and references leaves the table as it was |
| Scenarios.UpdateCases | src/test/java/com/kata/api/service/BeerServiceTest.java:177-192 | a full update of id 1 with the test request succeeds and writes the test beer back |
| Scenarios.UnknownBreweryRejected | src/test/java/com/kata/api/service/BeerServiceTest.java:164-174 | a request naming brewery 9999 fails first on that brewery |
| Scenarios.UnknownBreweryCases | src/test/java/com/kata/api/service/BeerServiceTest.java:164-174 | creating with brewery 9999 fails with not-found for that brewery and stores nothing |
| Scenarios.NotFoundCases | src/test/java/com/kata/api/service/BeerServiceTest.java:134-142 | looking up and fully updating beer 9999 fail with not-found for it; the update case is at lines 195-202 |
| Scenarios.PartialUpdateCases | src/test/java/com/kata/api/service/BeerServiceTest.java:227-244 | a PATCH of abv 6.0 and ibu 35.0 changes only those fields; an abv of 150.0, invalid under `@Valid`, is stored too |
| Scenarios.DeleteCases | src/test/java/com/kata/api/service/BeerServiceTest.java:205-224 | deleting id 1 empties the table, and deleting it again fails with not-found |
| Scenarios.GhostBreweryDangles | src/main/java/com/kata/api/service/BeerService.java:53-57 | with no brewery id in the request, a brewery the mapper set is kept, and it names no row of the brewery table |
| Scenarios.DanglingReferenceCases | src/main/java/com/kata/api/service/BeerService.java:50-77 | creating a beer whose entity points at brewery 42, absent from its table, is refused by the foreign key and stores nothing |

## Left out

- Controllers, HTTP status codes, the exception handler, logging and the OpenAPI configuration are not modelled. Validation enters only as the preconditions of `CreateBeer` and `UpdateBeer`.
- The mappers (`BeerMapper` and the brewery, style and category mappers) are not part of this model. They are parameters, and nothing is assumed about what they copy.
- The Brewery, Style and Category entity classes and the repositories are not part of this model. The entities carry only the id, the name and a style's category; a repository is a map from id to row.
- Transactions are modelled only by their all-or-nothing effect. Concurrency, isolation and the rollback machinery are not modelled; `ResourceNotFoundException` is taken to be unchecked, so it rolls back.
- BreweryDto.ValidBreweryDTO: does not model `@URL` on `website`, because it depends on Hibernate Validator's URL parser. Every website passes.
- abv and ibu are Java `Double`s but are modelled as exact reals. NaN, infinities and rounding at the range bounds are not modelled.
- BeerService.BeerService.CreateBeer: does not model 32-bit wrap-around of the `Integer` identity; ids are unbounded.
- BeerService.BeerService.CreateBeer: does not model identity values used up by inserts that the database rejects; a failed create leaves the counter as it was.
- BeerService.BeerService.CreateBeer: when the mapper copies a request id into the new entity, JPA would `merge` instead of insert. The model always inserts under a fresh id, so a client-supplied id on create is ignored.
- When a new row breaks both a column constraint and a foreign key, the database chooses which error it reports. The model reports the column violation.
- Store.FindAll: without an `ORDER BY`, the database chooses the order of `findAll()`; the model fixes it as ascending id.
- Strings are sequences of Unicode scalar values. `String.length()` is their UTF-16 length; unpaired surrogates cannot be expressed.
- The database's own column length is modelled in UTF-16 units, like `String.length()`. A database that counts code points or bytes is not modelled.
