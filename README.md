# Sales API core: the sale repository, the request gate and admin seeding

This project models two parts of the ArsalanAssesment web API in Dafny.

1. **The sale repository.** `SaleRepository` does create, read, update,
   delete and filter operations on the persisted `Sales` set. Here it is the
   class `SaleRepo.SaleRepository`. Its field `sales` is a map from id to a
   `Sales.Sale` record (amount, sale date, representative id, created and
   updated timestamps). Its field `nextId` is the database identity counter.
   Every operation answers with the envelope that `ResponseHelper.CreateResponse`
   builds, modelled as `Sales.Response`: a success flag, an error flag, a
   message tag, and an optional payload. The payload is one record, a list of
   records, or the update request echoed back.
2. **The request gate and start-up seeding** from `Program.cs`.
   - `CheckUserLoggedInMiddleware` lets bypass paths through, answers 401
     while the static `IsLoggedIn` flag is false, and otherwise passes the
     request on. The bypass check and the decision are pure functions. The
     flag lives in a class, and token events update it.
   - `SeedAdminUserAsync` makes sure the admin role and the admin account
     exist. It is the method `IdentityStores.SeedAdminUser`, specified by
     the function `SeedAdmin`.

Modelling choices:

- Dates and timestamps are integers (ticks).
- Decimal amounts are integers, because they are only copied.
- The current time is a parameter, `now`.
- Whether the store throws is a parameter, `fault`. A store failure returns
  the exception envelope and leaves the table unchanged.
- The filter checks for invalid input before it runs any query. So an invalid
  combination is answered InvalidData even when the store would fail.
- AutoMapper's projections onto `GetSaleDTO` and `Sale` are treated as
  field-wise copies.

Files: `sales.dfy` (records, envelope, the listing and filter specifications),
`sale_repository.dfy` (the repository class and client methods that chain its
operations), `program.dfy` (gate, flag, seeding).

## Model

| member | source | states |
|---|---|---|
| `SaleRepo.SaleRepository.Create` | ArsalanAssesment.Web/Repository/SaleRepository.cs:25-47 | On success, exactly one new record is added, under an id not in the table before, with the request's amount, date and representative. The identity counter advances by one. It returns success, not error, tagged Added, with that record as payload. A store failure gives the exception envelope and leaves the table unchanged. |
| `SaleRepo.SaleRepository.Delete` | ArsalanAssesment.Web/Repository/SaleRepository.cs:49-78 | An absent id gives NotFound (success, not error, no payload) and the table is unchanged. A present id is removed, and only that id. The removed record is returned tagged Deleted. A failure gives the exception envelope and changes nothing. |
| `SaleRepo.SaleRepository.GetAll` | ArsalanAssesment.Web/Repository/SaleRepository.cs:80-107 | Answers NotFound exactly when the table is empty. Otherwise it answers Successful with a list that holds every record exactly once. It cannot modify the table. |
| `SaleRepo.SaleRepository.Get` | ArsalanAssesment.Web/Repository/SaleRepository.cs:110-135 | An absent id gives NotFound with no payload. A present id gives Successful with the stored record. The table is never modified. |
| `SaleRepo.SaleRepository.Update` | ArsalanAssesment.Web/Repository/SaleRepository.cs:137-170 | A present id gets its amount, representative and update time overwritten. Its id, sale date, creation time and all other records stay as they were. The payload echoes the request, not the stored record. An absent id gives NotFound and changes nothing. |
| `SaleRepo.SaleRepository.GetSalesByFilters` | ArsalanAssesment.Web/Repository/SaleRepository.cs:172-216 | An invalid combination is answered InvalidData without consulting the store. Otherwise it answers NotFound when the selection is empty, or Successful with the selected records. A store failure gives the exception envelope. |
| `Sales.Mode` | ArsalanAssesment.Web/Repository/SaleRepository.cs:181-194 | The three-way choice. Both dates give a date range, plus the representative when it is positive. A missing date with a positive representative gives that representative alone. Anything else is invalid. |
| `Sales.Matches` | ArsalanAssesment.Web/Repository/SaleRepository.cs:184-189 | The `Where` conditions. Both date-range queries test the inclusive date range [start, end]. Both representative queries test `RepresentativeID` for equality. Invalid input matches nothing. |
| `Sales.Selected` | ArsalanAssesment.Web/Repository/SaleRepository.cs:183-189 | The selection holds exactly the table's records that meet the chosen condition, each stored under its own id. |
| `Sales.Listing` | ArsalanAssesment.Web/Repository/SaleRepository.cs:85 | The materialised list holds every record of the table exactly once. Ids strictly increase along it. |
| `Sales.ListedIffMatches` | ArsalanAssesment.Web/Repository/SaleRepository.cs:183-189 | A record is in the filter's list iff it is stored in the table and meets the chosen `Where` condition. |
| `Sales.FilterListing` | ArsalanAssesment.Web/Repository/SaleRepository.cs:181-189 | With both dates, a record is listed iff it is in the table, its sale date lies in the inclusive [start, end], and it matches the representative when that is positive. With a date missing, a record is listed iff it belongs to the representative; the single date given is ignored. |
| `Sales.InvertedRangeSelectsNothing` | ArsalanAssesment.Web/Repository/SaleRepository.cs:183-200 | When start is after end, nothing is selected, so the filter answers NotFound. |
| `Sales.SingleDateIgnored` | ArsalanAssesment.Web/Repository/SaleRepository.cs:181-187 | A lone start date or a lone end date leads to the same choice as no date at all. |
| `SaleRepo.CreateThenGet` | ArsalanAssesment.Web/Repository/SaleRepository.cs:25-37 | Fetching a newly created sale by its id returns the same amount, sale date and representative. |
| `SaleRepo.DeleteThenGet` | ArsalanAssesment.Web/Repository/SaleRepository.cs:54-67 | After an existing sale is deleted, fetching its id answers NotFound. |
| `SaleRepo.UpdateThenGet` | ArsalanAssesment.Web/Repository/SaleRepository.cs:142-160 | After an update, fetching the record shows the new amount, representative and update time, and the old sale date. |
| `Startup.StartsWithSegments` | ArsalanAssesment.Web/Program.cs:232 | `StartsWithSegments` with `OrdinalIgnoreCase`: the path's leading characters equal the other path once both are upper-cased, and the match ends at the end of the path or at a '/'. |
| `Startup.IsBypass` | ArsalanAssesment.Web/Program.cs:229-232 | A path bypasses the gate iff it starts, by segments, with "/api/users/login", "/api/users/register" or "/swagger". |
| `Startup.Decide` | ArsalanAssesment.Web/Program.cs:226-250 | A request goes to the next stage iff its path is a bypass path or the flag is set. Otherwise the answer is status 401 with body "User is not logged in.". |
| `Startup.CheckUserLoggedInMiddleware.Invoke` | ArsalanAssesment.Web/Program.cs:226-250 | The gate calls the next stage iff the path is a bypass path or the user is logged in, and otherwise writes 401. |
| `Startup.CheckUserLoggedInMiddleware.OnEvent` | ArsalanAssesment.Web/Program.cs:99-129 | A validated token sets the flag. A failed authentication or a challenge leaves it as it was. A set flag is never cleared. |
| `Startup.CheckUserLoggedInMiddleware.constructor` | ArsalanAssesment.Web/Program.cs:219 | The flag starts false. |
| `Startup.DecisionIgnoresCase` | ArsalanAssesment.Web/Program.cs:232 | Changing the letter case of a path never changes the gate's answer; the comparison is case-insensitive. |
| `Startup.BypassCoversSubpaths` | ArsalanAssesment.Web/Program.cs:229-237 | A bypass path, alone or followed by further segments, is always let through, whatever the flag. |
| `Startup.SwaggerUiIsGated` | ArsalanAssesment.Web/Program.cs:232 | "/swaggerui" is not under "/swagger", because matching is segment-wise. While logged out it gets 401. |
| `Startup.LoginSuffixIsGated` | ArsalanAssesment.Web/Program.cs:232 | "/api/users/loginx" is not under the login path. While logged out it gets 401. |
| `Startup.UpperCaseDocsPass` | ArsalanAssesment.Web/Program.cs:232-236 | "/SWAGGER/index.html" is let through while logged out. |
| `Startup.SalesApiIsGated` | ArsalanAssesment.Web/Program.cs:240-246 | "/api/sales" gets 401 while logged out. |
| `Startup.AfterEvent` | ArsalanAssesment.Web/Program.cs:99-129 | After one event the flag is set iff it was set before or the event is a validated token. A set flag stays set. |
| `Startup.AfterEvents` | ArsalanAssesment.Web/Program.cs:111-122 | After a sequence of events the flag is set iff it started set or some event was a validated token. So a set flag is never cleared, and from false only a validated token sets it. |
| `Startup.GateAfterEvents` | ArsalanAssesment.Web/Program.cs:111-122 | Before any token is validated, every non-bypass request is refused with 401. After any one token is validated, every request passes, whoever sends it. |
| `Startup.GateScenario` | ArsalanAssesment.Web/Program.cs:219-249 | A fresh gate refuses "/api/sales" and lets the documentation path through. After a failed authentication and then a validated token, it lets "/api/sales" through. |
| `Startup.SeedAdmin` | ArsalanAssesment.Web/Program.cs:174-213 | Afterwards the admin role exists. Seeding succeeds iff an admin user already existed or creating one succeeded. An existing admin user, and every other user, is left unchanged. A new admin user carries the admin role. A failed creation leaves the users unchanged. |
| `Startup.SeedKeepsConsistent` | ArsalanAssesment.Web/Program.cs:182-206 | Seeding keeps two facts true: every user is stored under its own name, and every user holds only roles that exist. |
| `Startup.SeedIdempotent` | ArsalanAssesment.Web/Program.cs:182-212 | After a successful seeding, seeding again leaves the roles and users exactly as they were and succeeds again, whatever the user store would answer. |
| `Startup.IdentityStores.SeedAdminUser` | ArsalanAssesment.Web/Program.cs:174-213 | Updates the role and user stores step by step, with exactly the effect and outcome that `SeedAdmin` gives. |
| `Startup.SeedTwice` | ArsalanAssesment.Web/Program.cs:182-212 | Two start-ups in a row: once the first has seeded, the second leaves the stores as the first left them. |

## Left out

- Entity Framework, SQL Server and the database context are replaced by an in-memory map. The model does not cover change tracking, or a `SaveChangesAsync` failure that leaves tracked changes in the context: a failure means nothing was persisted.
- Id generation is an identity counter, so a new id is larger than every earlier one. The database's own id assignment is not modelled.
- Record creation and update times are set to `now` on create. The `Sale` entity's default values and the AutoMapper profile are not part of this model.
- `Sales.Listing`: query results are listed in ascending id order. The source fixes no order (there is no `OrderBy`), so the model's order is a choice.
- `SaleRepo.SaleRepository.Update`: the record is a value, so the update replaces it in the map; the in-place update of a tracked entity object is not modelled.
- Logging (`ILogger`, `Console.WriteLine`) only has side effects and is left out.
- async/await and concurrent requests are left out. So is the unsynchronised access to the static `IsLoggedIn` flag; the gate is modelled one request at a time.
- JWT validation (issuer, audience, signing key, expiry) is library cryptography. Only the resulting validated, failed or challenge event is modelled.
- ASP.NET Identity internals are left out: password hashing, the password policy, user-name normalisation in `FindByNameAsync`, and user ids. Whether user creation succeeds is a parameter.
- `Startup.SeedAdmin`: role names and user names are compared exactly. `RoleExistsAsync`, `AddToRoleAsync` and `FindByNameAsync` compare normalised, case-insensitive names, so with an existing role "Admin" the source creates no role, while the model adds "admin".
- `Startup.GateAfterEvents`: token events are not tied to requests. The gate is registered before `UseAuthentication` (Program.cs:157, 164), so it reads the flag before that request's own token is checked. While the flag is false, a gated request with a valid token still gets 401 and its token is never validated; only a request to a bypass path can raise the first validated-token event. The model takes the event sequence as given.
- `Startup.IdentityStores.SeedAdminUser`: the source ignores the results of `RoleManager.CreateAsync` and `AddToRoleAsync`; the model assumes both succeed.
- `Startup.StartsWithSegments`: case is folded for ASCII letters only. Non-ASCII case mappings of `OrdinalIgnoreCase` are not modelled. The framework's handling of a prefix that ends in '/' is also left out, since no bypass path ends in '/'.
- Swagger/OpenAPI setup, dependency-injection registrations, HTTPS redirection, authorization and controller routing are plumbing and are left out.
