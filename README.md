# Rental marketplace core, modelled in Dafny

This project models the decision logic of a small rental marketplace. Managers list
properties, tenants search the listings and apply, and managers approve or deny the
applications. The modelled pieces are:

- **Property search** (`PropertyControllers`). The query string of `GET /properties` is
  turned into a list of WHERE conditions, one for each criterion that is present and not
  the `'any'` sentinel. The conditions are combined with AND over the property/location
  join. This module also parses the list and flag fields of a new listing.
- **Application lifecycle** (`ApplicationControllers`). Three handlers work on an
  in-memory store that stands in for the database:
  - applying for a property writes a one-year lease and then an application. The two
    inserts are written one after the other and are not atomic, so a failing application
    insert leaves the lease behind (see Findings);
  - approving an application writes a new lease and adds the applicant to the property's
    tenants;
  - listing applications is scoped by manager or tenant, and each application comes with
    the latest lease of its tenant at its property and that lease's next payment date.
- **Role gate** (`AuthMiddleware`). The bearer token is taken from the `Authorization`
  header and decoded. The request goes on only when the lower-cased `custom:role` claim is
  one of the route's roles; otherwise it is answered 401, 400 or 403.
- **Client filter state** (`GlobalState`). The search filters, the filter-panel flag and
  the view mode, with the three reducers that change them.
- **Client requests** (`Api`):
  - the query parameters the search sends for a filter state, proved to reach the server's
    criteria unchanged (ranges, amenities, favourite ids);
  - the cache tags of the list and detail queries;
  - the `URLSearchParams` URL of the applications query;
  - the endpoint choice and 404 fallback of `getAuthUser`.
- **Dates** (`Calendar`). The next payment date is a month after a lease's start, with the
  same day-overflow normalisation `Date.setMonth` performs.
  `Date.setFullYear` gives one-year lease ends the same way.

Support modules:

- `Text` holds the JavaScript string and number primitives the code relies on:
  `split`, `join`, `trim`, ASCII `toLowerCase`, and `Number()` on decimal text.
- `Entities` holds the database rows.
- `Options` holds the option type.

Clocks, the JWT decoder and the date parser are parameters: `now`, `decode` and
`parseDate`.

## Model

| member | source | states |
|---|---|---|
| PropertyControllers.WhereConditions | server/src/controllers/property-controllers.ts:32-91 | At most ten conditions. Every candidate whose `if` succeeds is in the list, and every listed condition comes from such a candidate. |
| PropertyControllers.BuildWhereConditions | server/src/controllers/property-controllers.ts:32-91 | The handler's pushes, step by step, build exactly the fold `WhereConditions`. The list is empty (no WHERE clause) iff no criterion is in effect. |
| PropertyControllers.WhereConditionsMeaning | server/src/controllers/property-controllers.ts:32-124 | A property meets every emitted condition iff it meets every criterion of the query, each stated on its own fields. |
| PropertyControllers.WhereConditionsMeaningAll | server/src/controllers/property-controllers.ts:118-124 | The same, for all properties and lease tables at once: conditions are joined with AND only. |
| PropertyControllers.PushMeaning | server/src/controllers/property-controllers.ts:124 | All pushed conditions hold iff every candidate whose `if` succeeded holds. |
| PropertyControllers.CandidateMeaning | server/src/controllers/property-controllers.ts:34-91 | Each `if`'s condition, when pushed, holds exactly as its criterion demands. An absent criterion demands nothing. |
| PropertyControllers.NoCriterionNoWhere | server/src/controllers/property-controllers.ts:124 | No condition is emitted iff no criterion is in effect (both directions). |
| PropertyControllers.Select | server/src/controllers/property-controllers.ts:122-127 | The rows returned are exactly the join rows meeting all conditions, and never more rows than the join. |
| PropertyControllers.SelectWithoutConditions | server/src/controllers/property-controllers.ts:124 | With no condition the whole join is returned, in order. |
| PropertyControllers.GetProperties | server/src/controllers/property-controllers.ts:15-129 | A property is returned iff it is in the join and satisfies every present criterion. |
| PropertyControllers.NoCriterionReturnsAll | server/src/controllers/property-controllers.ts:108-129 | With no criterion in effect every join row is returned. |
| PropertyControllers.RangeBoundsIndependent | server/src/controllers/property-controllers.ts:41-63 | `priceMin` alone gives only `pricePerMonth >= min`. `priceMax` alone gives only `<= max`. Square footage behaves the same. |
| PropertyControllers.BedsSentinel | server/src/controllers/property-controllers.ts:49-51 | A beds condition is emitted iff `beds` is truthy and not `'any'`. It is then `beds >= Number(value)`. |
| PropertyControllers.BathsSentinel | server/src/controllers/property-controllers.ts:53-55 | The same for `baths`. |
| PropertyControllers.PropertyTypeSentinel | server/src/controllers/property-controllers.ts:65-67 | A type condition is emitted iff `propertyType` is truthy and not `'any'`. It is then equality with that type. |
| PropertyControllers.AmenitiesAreContainment | server/src/controllers/property-controllers.ts:69-74 | The amenity condition holds iff the requested set is a subset of the property's amenities: containment, not equality. |
| PropertyControllers.Numbers | server/src/controllers/property-controllers.ts:35 | The favourite ids list has one number per comma-separated piece, each `Number(piece)`. |
| PropertyControllers.InvalidDateAddsNoCondition | server/src/controllers/property-controllers.ts:76-91 | An `availableFrom` that is not a date adds no condition: same list as without the parameter. |
| PropertyControllers.GetPropertiesAsWritten | server/src/controllers/property-controllers.ts:76-132 | As written: a present but unparseable date answers 500, iff that is the case. Otherwise the rows are those of `GetProperties`. |
| PropertyControllers.InvalidDateFailsAsWritten | server/src/controllers/property-controllers.ts:79-81 | For `availableFrom=next week` the handler as written fails, where the intended result is every row. |
| PropertyControllers.ParseList | server/src/controllers/property-controllers.ts:262-267 | Non-text gives `[]`. Text gives one item per comma-separated piece: item `i` is the `i`-th piece of `split(',')`, trimmed. Every item is comma-free. |
| PropertyControllers.ParseFlag | server/src/controllers/property-controllers.ts:268-269 | The flag is set iff the field is exactly the text `true`. |
| PropertyControllers.ParseListJoin | server/src/controllers/property-controllers.ts:262-267 | A non-empty list of trimmed, comma-free items, joined with `,`, parses back to itself. |
| PropertyControllers.ParseListSpaced | server/src/controllers/property-controllers.ts:262-267 | The same list written as `a, b, c` (a space after each comma) also parses back to itself: the spaces are trimmed away. |
| ApplicationControllers.IndexOf | server/src/controllers/application-controllers.ts:140-146 | Finds the row with the given id when there is one. `None` iff no row has that id. |
| ApplicationControllers.FindLatestLease | server/src/controllers/application-controllers.ts:42-48 | Returns a lease of the tenant at the property whose start is at or after every other such lease's. `None` iff the pair has no lease. |
| ApplicationControllers.ScopeOf | server/src/controllers/application-controllers.ts:10-25 | `'manager'` filters on the manager and `'tenant'` on the applicant. Any other type, or a missing `userId`, filters nothing. |
| ApplicationControllers.Listed | server/src/controllers/application-controllers.ts:27-38 | The listing holds exactly the applications in scope, and never more rows than the table. |
| ApplicationControllers.ListedEveryone | server/src/controllers/application-controllers.ts:12-28 | With no filter every application is listed, in order. |
| ApplicationControllers.ListingScope | server/src/controllers/application-controllers.ts:12-38 | A manager sees applications to the properties they manage, a tenant sees their own, and anyone else sees all. |
| ApplicationControllers.ApprovalLease | server/src/controllers/application-controllers.ts:154-163 | The approval lease has the applicant and property, and the property's rent and deposit. It starts now and ends one year later (`setFullYear`), which is after now. |
| ApplicationControllers.Restatus | server/src/controllers/application-controllers.ts:190-195 | A non-approval update changes only `status`. An absent status changes nothing. A status the column rejects fails. |
| ApplicationControllers.ApprovalKeepsConsistent | server/src/controllers/application-controllers.ts:153-187 | Approval's three writes keep the store consistent: fresh increasing ids, and every reference resolves. |
| ApplicationControllers.Store.CreateApplication | server/src/controllers/application-controllers.ts:71-133 | The handler as its transaction wrapper intends it. A NaN id is 500. A missing property is 404, iff that is the case. An unknown tenant or a bad status is 500 with nothing written. Success (201) happens iff the property and tenant exist and the status is accepted. It appends exactly one lease (rent and deposit from the property, one year long) and one application linked to it. |
| ApplicationControllers.Store.CreateApplicationAsWritten | server/src/controllers/application-controllers.ts:71-133 | The handler as written, with the two inserts committed separately. The outcomes are the same as above. The lease is appended whenever the property and tenant exist, even when the application insert then fails on the status. The application is appended only on success. |
| ApplicationControllers.OrphanLeaseAsWritten | server/src/controllers/application-controllers.ts:96-131 | For an existing property and tenant and the status `"Bogus"`, the handler as written answers 500 yet adds a lease that no application links to. |
| ApplicationControllers.Store.UpdateApplicationStatus | server/src/controllers/application-controllers.ts:136-211 | A missing id is 404 and changes nothing. `"Approved"` adds exactly one lease, adds the tenant to the property's occupants and links the lease. Any other status only rewrites `status`. A rejected status is 500. It never answers 201. |
| ApplicationControllers.Store.Approve | server/src/controllers/application-controllers.ts:153-187 | The approval branch's new state: lease appended, occupant added, application approved and linked. |
| ApplicationControllers.Store.Rewrite | server/src/controllers/application-controllers.ts:190-195 | The other branch's new state: only that application row changes. |
| ApplicationControllers.Store.ListApplications | server/src/controllers/application-controllers.ts:9-68 | One view per listed application, in order. Each has that application's latest lease (or none iff there is none) and the lease's next payment date. |
| ApplicationControllers.ApproveTwice | server/src/controllers/application-controllers.ts:153-163 | No guard on the current status: approving the same application twice adds two leases and keeps the old ones. |
| ApplicationControllers.ApproveById | server/src/controllers/application-controllers.ts:136-187 | Approving an existing application by its decimal id adds exactly one lease. |
| Entities.ParseStatus | server/src/controllers/application-controllers.ts:191-194 | Exactly the three column values are accepted, each as itself. |
| AuthMiddleware.Status | server/src/milddleware/auth-middleware.ts:25-46 | `next()` (code 0) iff the outcome is Proceed. A missing token is 401, an unreadable one 400 and a refused role 403, each iff that outcome. Every refusal is a 4xx code. |
| AuthMiddleware.Message | server/src/milddleware/auth-middleware.ts:26-43 | Only `next()` sends no message. |
| AuthMiddleware.MessagesDistinct | server/src/milddleware/auth-middleware.ts:26-43 | Different outcomes send different messages. |
| AuthMiddleware.Decide | server/src/milddleware/auth-middleware.ts:21-47 | 401 iff there is no token. 400 iff there is a token but it does not decode or its role throws. 403 iff the token decodes to a text role whose lower-cased form is not allowed. |
| AuthMiddleware.Token | server/src/milddleware/auth-middleware.ts:23 | No header, or a header without a space, gives no token. A token never contains a space. |
| AuthMiddleware.RoleText | server/src/milddleware/auth-middleware.ts:31 | A missing role reads as `""` and a text role as itself. A truthy non-text role throws (`None`), iff it is one. |
| AuthMiddleware.Request.Authorize | server/src/milddleware/auth-middleware.ts:21-47 | The outcome is `Decide`'s. `req.user` is set to (`sub`, `role`) iff a token is present and decodes. |
| AuthMiddleware.ProceedIff | server/src/milddleware/auth-middleware.ts:23-41 | The request passes iff there is a token, it decodes, and the lower-cased `custom:role` text is allowed. |
| AuthMiddleware.SchemeIgnored | server/src/milddleware/auth-middleware.ts:23 | For any scheme word, `scheme + " " + token` yields that token. |
| AuthMiddleware.NoSpaceUnauthorized | server/src/milddleware/auth-middleware.ts:23-27 | A header without a space is answered 401 with `Unauthorized`. |
| AuthMiddleware.NoHeaderUnauthorized | server/src/milddleware/auth-middleware.ts:23-27 | No header is answered 401 with `Unauthorized`. |
| AuthMiddleware.MissingRole | server/src/milddleware/auth-middleware.ts:31-41 | A missing role passes iff `""` is allowed, and is answered 403 with `Access denied` otherwise. |
| AuthMiddleware.UnreadableBadRequest | server/src/milddleware/auth-middleware.ts:29-44 | A token the decoder cannot read is answered 400 with `Invalid token`. |
| AuthMiddleware.RoleComparedLowerCased | server/src/milddleware/auth-middleware.ts:37 | `"Manager"` passes a gate allowing `"manager"` and fails one allowing only `"Manager"`. |
| GlobalState.GlobalState.constructor | client/src/state/index.ts:21-35 | The initial state: panel closed, initial filters, grid view. |
| GlobalState.GlobalState.SetFilters | client/src/state/index.ts:41-43 | The filters become the payload spread over them. The other two fields are unchanged. |
| GlobalState.GlobalState.ToggleFiltersFullOpen | client/src/state/index.ts:44-46 | The flag is negated. The other two fields are unchanged. |
| GlobalState.GlobalState.SetViewMode | client/src/state/index.ts:47-49 | The view mode becomes the payload. The other two fields are unchanged. |
| GlobalState.Merge | client/src/state/index.ts:41-43 | Each key in the payload takes the payload's value. Every other key keeps its value. |
| GlobalState.MergeEmpty | client/src/state/index.ts:42 | An empty payload leaves the filters unchanged. |
| GlobalState.MergeIdempotent | client/src/state/index.ts:42 | The same payload twice is the same as once. |
| GlobalState.MergeThen | client/src/state/index.ts:42 | Two payloads in a row act as one payload where the later keys win. |
| GlobalState.ToggleTwice | client/src/state/index.ts:44-46 | Toggling twice restores the whole state. |
| GlobalState.SetFiltersTwice | client/src/state/index.ts:41-43 | Setting the same filters twice equals setting them once. |
| Api.Params | client/src/state/api.ts:94-109 | Location, beds, baths, type and date pass through. A range that is not set sends neither end. Amenities and favourite ids are sent iff the list is given. Latitude and longitude are sent iff the coordinates are. |
| Api.ToSearchQuery | client/src/state/api.ts:94-109 | The server sees each bound truthy iff it is set, and `Number` reads it back as the same integer. The text values arrive unchanged. |
| Api.ParamsShape | client/src/state/api.ts:95-109 | Range ends go to their `Min`/`Max` parameters. `latitude` is the second coordinate and `longitude` the first. |
| Api.RenderedLowerBound | client/src/state/api.ts:97-103 | A bound the client sends reads back on the server as `x >= bound`, and is truthy iff set. |
| Api.RenderedUpperBound | client/src/state/api.ts:97-103 | The same for upper bounds. |
| Api.PriceRangeEndToEnd | client/src/state/api.ts:97-98 | A property meets the server's price criteria iff its rent lies within the client's range ends that are set. |
| Api.SquareFeetRangeEndToEnd | client/src/state/api.ts:102-103 | The same for the square-footage range. |
| Api.AmenitiesEndToEnd | client/src/state/api.ts:104 | For non-empty, comma-free names, the server's amenity criterion holds iff the property has every requested amenity. |
| Api.JoinIdsRoundTrip | client/src/state/api.ts:106 | A non-empty id list joined with `,` is split and read back by the server as the same numbers. |
| Api.JoinIdsNonEmpty | client/src/state/api.ts:106 | A non-empty id list is sent as a truthy string. |
| Api.IdAmongParts | client/src/state/api.ts:106 | The server finds an id among the pieces iff the list holds it. |
| Api.FavoritesEndToEnd | client/src/state/api.ts:106 | A non-empty favourites list keeps exactly the properties whose id it holds. An empty one restricts nothing. |
| Api.InitialFiltersUnconstrained | client/src/state/api.ts:94-109 | Searching with the initial filters makes the server emit none of the modelled conditions. The radius filter on the coordinates still applies and is not modelled. |
| Api.ListTags | client/src/state/api.ts:116-124 | With no result the only tag is LIST. Otherwise there is one tag per row plus LIST. |
| Api.ListTagsMeaning | client/src/state/api.ts:116-124 | LIST is always provided. A row's tag is provided iff the row is in the result. Every tag has the query's type. |
| Api.ItemTags | client/src/state/api.ts:133-134 | No tag iff there is no result. Otherwise there is exactly one tag, the row's. |
| Api.FormEncode | client/src/state/api.ts:298-305 | The encoded text uses only unreserved characters, `+` and `%`. It contains no `&` and no `=`. |
| Api.FormRoundTrip | client/src/state/api.ts:298-305 | An ASCII value encoded by the client decodes back to itself. |
| Api.Pair | client/src/state/api.ts:300 | An encoded `name=value` pair contains `=` and no `&`. |
| Api.PairIf | client/src/state/api.ts:299-300 | `params.append` adds a pair iff the value is truthy, and the pair is `name=value` encoded. |
| Api.ApplicationsUrl | client/src/state/api.ts:297-306 | The URL starts with `/applications?`. The rest is empty iff neither argument is truthy. Otherwise it splits on `&` into the `userId` pair and then the `userType` pair, each present iff its argument is truthy. |
| Api.PairReadBack | client/src/state/api.ts:298-305 | Splitting a pair on `=` gives the encoded name and value, and an ASCII value decodes to itself. |
| Api.UserDetailsPath | client/src/state/api.ts:45-48 | Role `"manager"` looks the user up under `/managers`, and every other role under `/tenants`. |
| Api.UserDetails | client/src/state/api.ts:51-61 | The creation request's answer replaces the lookup's only after a 404. A found user or any other error is kept. |
| Api.RoleCaseMismatch | client/src/state/api.ts:43-45 | Role `"Manager"` passes the server's manager gate, but the client looks the user up among tenants. |
| Calendar.NextPaymentDate | server/src/utils/calculateNextPaymentDate.ts:1-5 | The next payment date is strictly later than the start and keeps its time of day. |
| Calendar.OneYearLater | server/src/controllers/application-controllers.ts:102 | One year later is in the next year, keeps the time of day, and is strictly later. |
| Calendar.NextPaymentDateShape | server/src/utils/calculateNextPaymentDate.ts:1-5 | The date moves to the next month with the same day and time. A day past that month's end overflows into the month after. The result is strictly later. |
| Calendar.DecemberRollsOver | server/src/utils/calculateNextPaymentDate.ts:3 | December moves to January of the next year. |
| Calendar.EndOfJanuaryOverflows | server/src/utils/calculateNextPaymentDate.ts:3 | January 31st moves to March 3rd, or March 2nd in a leap year. |
| Calendar.MakeDate | server/src/utils/calculateNextPaymentDate.ts:3 | Month normalisation keeps the time. An in-range day stays in the normalised month. |
| Calendar.OneYearLaterShape | server/src/controllers/application-controllers.ts:102 | One year later keeps month, day and time, except that February 29th becomes March 1st. It is strictly later. |
| Calendar.AtOrAfterTotal | server/src/controllers/application-controllers.ts:47 | Start dates are totally ordered, which the `startDate desc` ordering relies on. |
| Text.Split | server/src/controllers/property-controllers.ts:35 | `split` gives one more piece than there are separators, none of them containing the separator. |
| Text.SplitJoin | server/src/controllers/property-controllers.ts:70 | Splitting a join of separator-free pieces gives the pieces back. |
| Text.JoinSplit | server/src/controllers/property-controllers.ts:70 | Joining the pieces of a split gives the text back. |
| Text.Trim | server/src/controllers/property-controllers.ts:263 | `trim` returns the slice of the text that starts after the leading whitespace. Only whitespace follows the slice, and the slice neither starts nor ends with whitespace. |
| Text.ToLower | server/src/milddleware/auth-middleware.ts:37 | Lower-casing keeps the length and maps each character on its own. No upper-case ASCII letter remains. |
| Text.Number | server/src/controllers/property-controllers.ts:42 | Blank text is 0. NaN only for non-blank text. |
| Text.NumberIntToString | server/src/controllers/property-controllers.ts:42 | Every integer the client renders in decimal reads back as itself. |

## Left out

- The geographic radius filter of `getProperties` (`latitude`/`longitude`, `ST_DWithin`)
  and the coordinate extraction of `getProperty`: both are floating-point PostGIS
  functions. The client still sends the coordinates (`Api.ParamsShape`).
- The SQL text built by `Prisma.sql`/`Prisma.join` and `$queryRaw`. Conditions are
  modelled by their meaning over in-memory rows.
- In `createProperty`: the S3 uploads, the Nominatim geocoding request, the location
  insert, and the `parseFloat`/`parseInt` fields. Only the list and flag fields are
  modelled.
- JWT signature verification and the token format. `jwt.decode` is a parameter giving the
  claims or nothing. A payload that decodes to a plain string is not modelled.
- Date parsing (`new Date(text)`) is a parameter. Time zones, `toISOString` formatting and
  millisecond time values are not modelled; dates are calendar records in local time.
- `Text.Number` reads only optionally signed decimal integers and blank text. Fractions,
  exponents, hexadecimal and `Infinity` read as NaN. Prices and sizes are integers, not
  floating-point values.
- How the database orders a NaN parameter is not modelled. PostgreSQL sorts NaN above every
  number, while the model makes every comparison with NaN false.
- Express query values that are arrays or objects (`?favoriteIds=1&favoriteIds=2`) are not
  modelled. Every query value is a string or absent. A repeated `favoriteIds` makes `.split`
  throw, and the handler answers 500.
- The amenity and property-type values are not checked against their enums. A value
  outside the enum makes the database cast fail.
- `listApplications`: the included `property`, `manager`, `tenant` and `address` fields of
  each view are not modelled.
- Ties in start date: `FindLatestLease` returns the first of the latest leases.
  The database's choice among ties is unspecified.
- `cleanParams`, `withToast` and `createNewUserInDatabase` are not part of this model.
  `cleanParams` is taken to drop only `undefined` and `null` values.
- `getAuthUser`: the session and current-user fetches are I/O. Only the endpoint choice and
  the 404 fallback are modelled.
- `console.log` output is not modelled.
- Text.ToLower: maps ASCII letters only. `toLowerCase` beyond ASCII is not modelled.
- A `setFilters` payload that spreads an explicit `undefined` over a key.
- `Api.FormDecode` decodes `+` and escapes of ASCII characters only. `Api.FormRoundTrip`
  is therefore stated for ASCII values. Lone surrogate characters are not modelled.
- `Store.CreateApplication` and `Store.CreateApplicationAsWritten` take every body field as
  present.
- The database error text of a 500 is not modelled: only the fixed prefix of each message
  is kept.
- The single-call CRUD handlers of the manager, tenant and lease controllers, and the
  route wiring.
- `Store.AddProperty` and `Store.AddTenant` only populate the store the application
  handlers read. They stand in for other handlers and model no source lines.
- The status column's values (`Pending`, `Denied`, `Approved`) come from the data model.
  The schema file is not part of this model.

## Findings

| source | as written | input that shows it | evidently intended | confidence | as-written member | corrected member |
|---|---|---|---|---|---|---|
| server/src/controllers/property-controllers.ts:79-81 | `date.toISOString()` is called in the log line before the `isNaN(date.getTime())` check. On an Invalid Date it throws a RangeError, and the handler answers 500. | `GET /properties?availableFrom=next%20week` | An unparseable date adds no condition and the search proceeds, as the `isNaN` guard shows. | high, not executed | PropertyControllers.GetPropertiesAsWritten (shown by PropertyControllers.InvalidDateFailsAsWritten) | PropertyControllers.GetProperties (with PropertyControllers.InvalidDateAddsNoCondition) |
| server/src/controllers/application-controllers.ts:96-126 | The `$transaction` callback ignores the transaction client it receives. Both inserts go through the global `prisma` client, so each commits on its own. When the application insert fails, the lease insert is not rolled back. | `POST /applications` for an existing property and tenant with `status: "Bogus"` | Both inserts commit together or not at all, which is what wrapping them in `$transaction` is for. | high, not executed | ApplicationControllers.Store.CreateApplicationAsWritten (shown by ApplicationControllers.OrphanLeaseAsWritten) | ApplicationControllers.Store.CreateApplication |
