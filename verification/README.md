# Fussballverein read/write access layer, modelled in Dafny

This project models the core of the `fussballverein` module of a NestJS
service. The module exposes football clubs (a club, its stadium, its
players) over REST and GraphQL. The model covers:

- **the read service** (`FussballvereinService`):
  - lookup by id, with the players loaded on request;
  - the listing with search parameters: empty parameters take the
    unfiltered path, unknown names or enum values are rejected, then the
    rows are paged with `skip = number * size`, `take = size`;
  - the slice envelope, whose keyword lists are never `null` and whose
    `totalElements` counts all rows;
  - the allow-list of parameter names (`suchparameterNamen`) and the id
    pattern `ID_PATTERN`.
- **the REST conditional read** (`FussballvereinController.getById`):
  - 406 for a client that accepts neither JSON nor HTML;
  - 404 for a non-integer id or a missing club;
  - 304 when the handler finds `If-None-Match` equal to `"<version>"`;
  - otherwise 200 with `ETag: "<version>"`.

  This is the handler's own part of a conditional read in the sense of
  section 13.1.2 (If-None-Match) and section 8.8.3 (ETag) of RFC 9110. The
  persisted version is the entity tag, and the handler compares the header
  with it by plain string equality.
- **the input validation** of `FussballvereinDtoOhneRef` and
  `FussballvereinDto`. It is modelled as a declarative rule table plus the
  list of every violated field.
- **the GraphQL adapters**:
  - the create and update records built from the mutation input
    (version 0, fixed defaults);
  - the quoted version token handed to the write service;
  - the create, update and delete payloads;
  - the query side: lookup by id, the listing (which returns only the page
    content, after turning a boolean `lieferbar` into a string), and the
    `rabatt` display field.

All operations are pure functions over immutable data. The store is a
`seq` of rows. The where-builder, the write service and the default page
are parameters. Every service error is a value of a `Result`.

Files: `wrappers.dfy` (Option/Result/Outcome), `text.dfy` (decimal
rendering and parsing as JavaScript does it, version tags), `entity.dfy`
(store rows, relation loading), `suchparameter.dfy`, `service.dfy`,
`controller.dfy`, `dto.dfy`, `mutation.dfy`, `query.dfy`.

## Behaviour worth knowing

- Invalid search parameter names are answered with not-found (404).
- `totalElements` is the count of all rows (`count()` without a filter),
  whatever the search parameters select.
- `art` is not on the allow-list. So whenever the key check passes, `art`
  is absent and the enum check cannot fail
  (`FussballvereinService.CheckKeysImpliesCheckEnums`).
- `lieferbar` is not on the allow-list either. So every GraphQL listing
  that sets it is rejected, even after its boolean was turned into a
  string (`QueryResolver.LieferbarIsRejected`).
- The mutation resolver reads the fields of a book catalogue (`isbn`,
  `titel`, `abbildungen`, `rabatt`, ...), not those of
  `FussballvereinDto`. `MutationResolver.MutationDto` models the fields
  it actually reads.
- In `getById`, `ParseIntPipe` runs before the handler body. A
  non-integer id is therefore 404 even for a client that would get 406.
  The handler's own `verein === undefined` branch is unreachable because
  the service throws first. Both end in 404.
- `@IsNumberString()` admits `".5"`, and `Number.parseInt(".5", 10)` is
  NaN. `MutationResolver.ValidUpdateIdParses` states exactly which valid
  ids become NaN.

## Model

| member | source | states |
|---|---|---|
| `Text.IntegerValue` | src/fussballverein/controller/fussballverein-controller.ts:83-86 | the id pipe admits exactly the strings of an optional minus sign followed by digits |
| `Text.VersionTagRoundTrip` | src/fussballverein/resolver/mutation.ts:98 | the quoted version token `"<n>"` reads back as n |
| `Text.VersionTagInjective` | src/fussballverein/controller/fussballverein-controller.ts:112 | two version tags are equal exactly when the versions are equal |
| `Text.NumberValue` | src/fussballverein/resolver/query.ts:62 | `Number(id)` of a non-empty digit string is the value of its digits |
| `Text.ParseIntPrefix` | src/fussballverein/resolver/mutation.ts:101 | `parseInt(s, 10)` yields a number exactly when a digit follows the optional sign |
| `Text.NumberStringParse` | src/fussballverein/resolver/mutation.ts:55-56 | a string accepted by `IsNumberString` is NaN under `parseInt` exactly when it starts, after its sign, with the decimal point |
| `Suchparameter.Get` | src/fussballverein/service/fussballverein-service.ts:274 | a property is present exactly when its key is among `Object.keys`, and the pair is in the object |
| `Suchparameter.NamenDistinct` | src/fussballverein/service/suchparameter.ts:22-31 | the allow-list names eight keys, with no repeats |
| `Suchparameter.NamenCoverFelder` | src/fussballverein/service/suchparameter.ts:7-31 | every non-keyword field is allowed; `schlagwoerter` is allowed though it is not a field; no keyword field is on the list |
| `FussballvereinService.IdPatternIsPositiveId` | src/fussballverein/service/fussballverein-service.ts:46 | `ID_PATTERN` matches exactly the decimal renderings of the integers 1 to 10^11 - 1 |
| `FussballvereinService.Lookup` | src/fussballverein/service/fussballverein-service.ts:93-97 | no row is found exactly when no row has the id; a found row is in the store and has the id |
| `FussballvereinService.FindById` | src/fussballverein/service/fussballverein-service.ts:82-109 | not-found naming the id exactly when no row has it; otherwise the stored row, with the stadium, with the players exactly when `mitSpieler` is true (default false), and with a non-null keyword list |
| `FussballvereinService.Window` | src/fussballverein/service/fussballverein-service.ts:185-192 | the page holds min(size, rows - skip) rows (none past the end), and entry i is row skip + i |
| `FussballvereinService.Matching` | src/fussballverein/service/fussballverein-service.ts:184-192 | the selected rows are exactly the stored rows the where-predicate admits |
| `FussballvereinService.CreateSlice` | src/fussballverein/service/fussballverein-service.ts:232-248 | same length and order; each keyword list is present; a present list is kept; every other field is unchanged; the total is carried |
| `FussballvereinService.FindAll` | src/fussballverein/service/fussballverein-service.ts:214-230 | success exactly when size > 0 and number*size < row count; the content is that page of all rows; the total is the row count; an empty page is a not-found error naming the page |
| `FussballvereinService.IsValidKey` | src/fussballverein/service/fussballverein-service.ts:254-261 | the admitted names are exactly the fields of `Suchparameter` (including the four keyword fields `javascript`, `typescript`, `java`, `python`) plus `schlagwoerter` |
| `FussballvereinService.CheckKeys` | src/fussballverein/service/fussballverein-service.ts:250-271 | passes exactly when every key is admitted |
| `FussballvereinService.CheckKeysImpliesCheckEnums` | src/fussballverein/service/fussballverein-service.ts:273-286 | once the key check passes, the `art` enum check passes too |
| `FussballvereinService.Find` | src/fussballverein/service/fussballverein-service.ts:157-201 | absent or empty parameters give the unfiltered listing; a non-admitted key or an illegal `art` gives the invalid-parameters error; valid parameters give the page of matching rows, and an empty page is a not-found error naming parameters and page; a success has 1 to size rows and counts all rows |
| `FussballvereinService.RejectionIgnoresStore` | src/fussballverein/service/fussballverein-service.ts:176-180 | rejected parameters give the same error against every store, so no store query decides it |
| `FussballvereinService.TotalIgnoresFilter` | src/fussballverein/service/fussballverein-service.ts:199-212 | two successful listings of one store report the same total, whatever their filters |
| `FussballvereinController.GetById` | src/fussballverein/controller/fussballverein-controller.ts:82-121 | non-integer id gives 404; otherwise no acceptable format gives 406; a missing club gives 404; the handler answers 304 exactly when `If-None-Match` is the quoted persisted version, and 200 for a found club whenever it is absent or anything else; 200 carries the club (without players) and the ETag `"<version>"`, and the request's tag differs from it |
| `FussballvereinController.ConditionalReadIdempotent` | src/fussballverein/controller/fussballverein-controller.ts:111-118 | re-sending the ETag of a 200 answer against the unchanged store gives 304 |
| `FussballvereinController.StaleTagGetsBody` | src/fussballverein/controller/fussballverein-controller.ts:111-120 | a tag quoting any other version gives 200 with the current tag |
| `FussballvereinController.UnquotedNeverNotModified` | src/fussballverein/controller/fussballverein-controller.ts:89-115 | no `If-None-Match`, or an unquoted version, never gives 304 |
| `FussballvereinController.MissingClubIsNotFound` | src/fussballverein/controller/fussballverein-controller.ts:83-108 | a non-integer id, or an acceptable request for a missing club, gives 404 |
| `FussballvereinDto.ViolationsOhneRef` | src/fussballverein/controller/fussballverein-dto.ts:26-61 | no violation exactly when the rule table holds; a field is reported exactly when it is a field of the class and breaks its rule |
| `FussballvereinDto.ViolationsOhneRefByField` | src/fussballverein/controller/fussballverein-dto.ts:27-60 | `name` is reported exactly when absent, empty, or longer than 60 by validator.js's `isLength` count, which leaves out U+FE0E/U+FE0F; `mitgliederanzahl` exactly when present and not an integer or below 0; each format field exactly when present and its check rejects it |
| `FussballvereinDto.PlainLength` | src/fussballverein/controller/fussballverein-dto.ts:29 | for a name without the variation selectors U+FE0E/U+FE0F, the length `MaxLength` compares is the number of characters |
| `FussballvereinDto.SelectorAddsNoLength` | src/fussballverein/controller/fussballverein-dto.ts:29 | a trailing variation selector does not count towards `MaxLength` |
| `FussballvereinDto.SpielerViolations` | src/fussballverein/controller/fussballverein-dto.ts:74-79 | player index k is reported exactly when player k is invalid |
| `FussballvereinDto.OwnViolations` | src/fussballverein/controller/fussballverein-dto.ts:67-79 | the properties `FussballvereinDto` declares itself: none reported exactly when a present stadium and every present player are valid; the stadium, if reported, comes first; player k is reported exactly when it is invalid |
| `FussballvereinDto.Violations` | src/fussballverein/controller/fussballverein-dto.ts:67-80 | no violation exactly when the DTO is valid; the class's own properties come before the inherited ones: the stadium first (reported exactly when present and invalid), then each invalid player, then the `FussballvereinDtoOhneRef` violations as the tail |
| `FussballvereinDto.ValidDtoHasValidBase` | src/fussballverein/controller/fussballverein-dto.ts:67 | a valid `FussballvereinDto` has a valid `FussballvereinDtoOhneRef` part |
| `MutationResolver.ToAbbildungen` | src/fussballverein/resolver/mutation.ts:128-134 | absent images become the empty list; present ones keep length and order, each carrying its caption and content type |
| `MutationResolver.ToCreate` | src/fussballverein/resolver/mutation.ts:124-155 | version is 0 whatever the input; absent `art`, `datum`, `homepage` stay absent; absent `rabatt` is 0, `lieferbar` false, `schlagwoerter` empty; `isbn`, `rating`, `preis`, the title and present optional values are copied; the images are the element-wise mapped inputs |
| `MutationResolver.ToUpdate` | src/fussballverein/resolver/mutation.ts:157-171 | the update record has the create record's shared fields and defaults, and carries no id or version |
| `MutationResolver.UpdateCallFor` | src/fussballverein/resolver/mutation.ts:94-104 | the write service gets the mapped record, the id through `parseInt(id, 10)`, and, for a version of at least 0, the token `"<version>"` |
| `MutationResolver.UpdateTokenRoundTrip` | src/fussballverein/resolver/mutation.ts:54-61 | for a valid update input the token reads back as the client's version |
| `MutationResolver.ValidUpdateIdParses` | src/fussballverein/resolver/mutation.ts:54-56 | a valid update id becomes NaN exactly when it starts, after its sign, with the decimal point |
| `MutationResolver.Create` | src/fussballverein/resolver/mutation.ts:76-87 | the payload id is the id the write service returned for the mapped record; failures pass through |
| `MutationResolver.Update` | src/fussballverein/resolver/mutation.ts:89-112 | the payload version is exactly the service's returned version; failures pass through |
| `MutationResolver.Delete` | src/fussballverein/resolver/mutation.ts:114-122 | success (with `success = true`) exactly when the service call does not fail |
| `QueryResolver.FindById` | src/fussballverein/resolver/query.ts:56-66 | `Number(id)` goes to the service; its club (without players) or its not-found error comes back unchanged |
| `QueryResolver.ToStringValue` | src/fussballverein/resolver/query.ts:81 | a boolean becomes `"true"`/`"false"`, a string stays, `undefined` stays `undefined` |
| `QueryResolver.CoerceLieferbar` | src/fussballverein/resolver/query.ts:74-83 | same keys in the same order; a boolean `lieferbar` becomes its string; every other parameter, and an undefined `lieferbar`, is unchanged |
| `QueryResolver.Find` | src/fussballverein/resolver/query.ts:68-88 | succeeds exactly when the service does, returning exactly its slice content (1 to size rows) and dropping the total |
| `QueryResolver.LieferbarIsRejected` | src/fussballverein/resolver/query.ts:76-85 | a listing that sets `lieferbar` is rejected as invalid parameters |
| `QueryResolver.Rabatt` | src/fussballverein/resolver/query.ts:100-103 | an absent discount shows as 0; the text ends in ` %` unless `short` is false, and then in ` Prozent` |
| `QueryResolver.RabattRoundTrip` | src/fussballverein/resolver/query.ts:101-103 | the display text reads back as the discount (0 when absent) and the suffix form |

## Left out

- Logging, `findFileByFussballvereinId` (a file lookup that only logs), and the DI wiring in `module.ts`.
- The Prisma client. Its reads are modelled by `Entity.Load`, `FussballvereinService.Lookup` and `Window`; rows come back in store order.
- The where-builder. It is a parameter (`WhereBuilder`) and is not modelled.
- `createPageable`. Its default page is a parameter of the listing query.
- The write service. Its version check, version increment, id assignment and name-uniqueness check are not part of this model, so only the token it receives is modelled. It is a function parameter of `Create`, `Update` and `Delete`.
- The text of exception messages. The errors keep their data (id, parameters, page) instead.
- Express request/response objects, NestJS decorators, guards, interceptors, exception filters, Swagger/GraphQL schema glue, and Keycloak roles.
- Content negotiation is the boolean `acceptsJsonOrHtml`. `req.accepts` itself is not modelled.
- The format validators (`IsUrl`, `IsEmail`, `IsPhoneNumber('DE')`, `IsISO8601`) are uninterpreted predicates.
- The rules of `StadionDto` and `SpielerDto` are uninterpreted predicates, because their files are not part of this model.
- `FussballvereinDto.ViolationsOhneRef`: a character is a Unicode scalar value here, so an unpaired UTF-16 surrogate, which a JavaScript string can hold, has no counterpart.
- The `BigNumber` values `preis` and `rabatt` are integers here. Decimal rendering of fractions is not modelled.
- JavaScript numbers are doubles; ids, versions and counts are unbounded integers here. Precision loss above 2^53 is not modelled.
- `Text.IntegerValue`: `ParseIntPipe` also demands `isFinite`, so an integer string whose value exceeds the largest double (about 1.8 * 10^308) is 404 in the source; here every such string is accepted.
- `FussballvereinController.GetById`: states the handler's decision only. When the 200 body is sent, Express checks freshness again (`req.fresh`) and answers 304 also for `If-None-Match: *`, for the weak tag `W/"<version>"` and for a comma-separated list containing `"<version>"`; the model answers 200 for these. Express's version and its `Cache-Control` handling are not part of this model.
- Search parameter values are modelled as strings, integers, booleans or `undefined`.
- `Text.NumberValue`: `Number(s)` is modelled on the empty string and on optionally signed digit strings only. Every other form (whitespace, fractions, exponents, hex) counts as NaN.
- `Text.ParseIntPrefix`: `parseInt` skips leading whitespace in the source; that is not modelled.
- `QueryResolver.FindById`: the store's answer to a NaN id is not modelled; the model stops with `NotANumber`.
- `FussballvereinService.Matching`: the contract states which rows are selected, not that they keep store order (the body does keep it).
- async/await scheduling. The calls run one after another.
