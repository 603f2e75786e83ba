# Dealership sales notes — a Dafny model

This project models the core of a car dealership's web application. The dealership
records sales notes (*notas de venta*). Each note ties a stored client (*cliente*, keyed by
RUT) and a stored vehicle (*vehiculo*, keyed by licence plate, *patente*) to the seller who
is logged in. Each note also owns exactly one payment (*pago*).

The model covers:

- **Models** (`models.dfy`): the five tables as values, with their payment-method and
  sale-state enumerations. `Consistent` collects the constraints the database enforces:
  primary keys, `String(n)` widths, unique columns and foreign keys.
- **Forms** (`forms.dfy`): the sales-note, registration and login forms. Each validator
  yields the set of fields in error, so a form is accepted exactly when that set is empty.
- **Store** (`store.dfy`): the class `Dealership` holds the five tables as maps. Its methods
  are the handlers that create, edit and delete a sales note, and the ones that add a client
  or a vehicle. Each handler stages its changes and then commits. The commit keeps the
  changes when the tables are still consistent and no database error (`fault`) occurred.
  Otherwise it rolls every table back.
- **Listing** (`listing.dfy`): the sales-note listing. It covers
  - the `per_page` clamp;
  - the search filter per field (`folio`, `cliente`, `vehiculo`, `estado`, or all of them);
  - the newest-first order by sale date.
- **Money** (`money.dfy`): the amount printed on a note's PDF. It is `$`, then an optional
  sign, then the digits in groups of three separated by `.`.
- **Auth** (`auth.dfy`): the single-administrator gate.
  - Registration is open only while no user exists.
  - Login sends the caller to registration while there is nobody to log in as.
  - Logout clears the session.
- **Text** (`text.dfy`): the string helpers used by the other modules.
  - `str(n)`;
  - the "blank after `strip()`" test behind required fields;
  - literal substring containment;
  - single-character removal and replacement.

The application does not check a RUT's check digit and keeps no vehicle status (sold or
reserved), sale history or revenue figures, so the model has none of these either.

## Model

| member | source | states |
|---|---|---|
| Models.MetodoPagoLabel | app/models.py:52 | the stored spelling of each payment method parses back to that method |
| Models.ParseMetodoPagoExact | app/models.py:52 | exactly the four enumeration labels are accepted, and each reads back as itself |
| Models.EstadoLabel | app/models.py:67 | the stored spelling of each sale state parses back to that state |
| Models.ParseEstadoExact | app/models.py:67 | exactly `completada`, `pendiente` and `anulada` are accepted, and each reads back as itself |
| Models.OnOrBeforeTotal | app/models.py:65 | any two sale dates are ordered one way or the other, so sorting by date is well defined |
| Models.PagoBelongsToOneNota | app/models.py:64 | in a consistent database every note's payment exists, and no other note points at the same payment |
| Models.UserFits | app/models.py:9-11 | a user's name, e-mail and password hash fit `String(100)`, `String(120)` and `String(256)` |
| Models.ClienteFits | app/models.py:26-31 | a client's columns fit their `String(n)` widths; absent optional columns always fit |
| Models.VehiculoFits | app/models.py:37-43 | a vehicle's string columns fit their `String(n)` widths |
| Models.KeyedByPrimaryKey | app/models.py:8-60 | every row is stored under its own primary key |
| Models.ColumnsFit | app/models.py:9-43 | every stored user, client and vehicle fits its column widths |
| Models.UniqueColumns | app/models.py:10-64 | no two users share an e-mail, no two vehicles a chassis or engine number, no two notes a payment |
| Models.ForeignKeys | app/models.py:61-64 | every note points at a stored client, vehicle, user and payment |
| Models.Consistent | app/models.py:6-76 | everything the database enforces on a committed state: the four predicates above |
| Models.KeyWidths | app/models.py:26-37 | every stored rut is at most 10 characters and every stored patente at most 8 (their key columns) |
| Models.FreshIdExists | app/models.py:51 | there is always a positive id that no payment, note or user uses yet, for the auto-increment to hand out |
| Text.NatString | app/routes.py:40 | `str(n)` of a natural number is a non-empty run of digits without a leading zero |
| Text.ParseNatString | app/routes.py:40 | the folio string the search matches against determines the folio: reading its digits back gives the number |
| Text.DecimalString | app/routes.py:40 | `str(n)` of an integer: a `-` for a negative number, then the digits of its magnitude |
| Text.IsBlank | app/forms.py:26 | the string is empty after `strip()`, which is what `DataRequired()` rejects |
| Text.Contains | app/routes.py:37 | `column LIKE '%q%'`: `q` occurs somewhere in the column as a literal substring |
| Text.ReplaceChar | app/routes.py:297 | `str.replace(a, b)` for single characters; it keeps the length |
| Text.RemoveChar | app/routes.py:297 | removing a character leaves no occurrence of it |
| Text.ReplaceCharAt | app/routes.py:297 | `replace(a, b)` swaps exactly the positions holding `a` and leaves every other character alone |
| Text.ReplaceCharAppend | app/routes.py:297 | `replace` distributes over concatenation |
| Text.ReplaceAbsentChar | app/routes.py:297 | `replace` of an absent character changes nothing |
| Forms.ChoicesAreEnums | app/forms.py:30-40 | the two select fields offer exactly the database enumerations, in both directions |
| Forms.Required | app/forms.py:26 | `DataRequired()` on a text field: something other than white space was entered |
| Forms.RutOk | app/forms.py:26-46 | the rut is required, at most 10 characters, and names a stored client |
| Forms.PatenteOk | app/forms.py:27-50 | the patente is required, at most 8 characters, and names a stored vehicle |
| Forms.MontoOk | app/forms.py:29 | `DataRequired()` on the integer amount: it parsed and is not 0 |
| Forms.MetodoPagoOk | app/forms.py:30-35 | the payment method is required and one of the four choices |
| Forms.EstadoOk | app/forms.py:36-40 | the state is required and one of the three choices |
| Forms.NotaFieldOk | app/forms.py:25-50 | the validator chain of each sales-note field; the date only has to parse |
| Forms.NotaVentaErrors | app/forms.py:25-50 | a field is in error exactly when its validator chain rejects it |
| Forms.ValidateNotaVenta | app/forms.py:25-50 | a form is accepted exactly when no field is in error. An accepted form has a stored rut of 1 to 10 characters and a stored patente of 1 to 8. It also has a date, a non-zero amount, and select values that read as enumeration values with the same spelling. A rejected form reports exactly the fields in error |
| Forms.UnknownReferenceRejected | app/forms.py:44-50 | a rut with no client, or one too long, is rejected on the rut field; likewise for the patente |
| Forms.RegistrationFieldOk | app/forms.py:12-23 | the validator chain of each registration field, with `validate_email` refusing a stored address |
| Forms.RegistrationErrors | app/forms.py:12-23 | a registration field is in error exactly when its validator chain rejects it |
| Forms.RegistrationAccepted | app/forms.py:12-23 | an accepted registration has a name, a syntactically valid e-mail nobody uses, a password of at least 8 characters and a matching confirmation |
| Forms.LoginErrors | app/forms.py:6-10 | the e-mail is in error exactly when it is blank or malformed; the password exactly when it is blank |
| Store.NewNota | app/routes.py:137-146 | the created note carries the form's client, vehicle, date, amount, state and remarks, the seller's id and the new payment's id |
| Store.NewPago | app/routes.py:129-132 | the created payment has the form's method, the note's final amount as its total, and no details |
| Store.EditedNota | app/routes.py:168-173 | an edit overwrites the six editable fields and keeps the folio, the seller and the payment link |
| Store.SyncedPago | app/routes.py:175-177 | the edited note's payment takes the new method and total and keeps its id and details |
| Store.SaleKeepsConsistent | app/routes.py:124-158 | a sale from an accepted form, with fresh ids and a stored seller, breaks no database constraint |
| Store.EditKeepsConsistent | app/routes.py:160-196 | an edit from an accepted form breaks no database constraint |
| Store.DeleteKeepsConsistent | app/routes.py:198-215 | deleting a note together with its payment breaks no constraint, since no other note used that payment |
| Store.DeleteRemovesOnlyThatSale | app/routes.py:198-215 | the notes after a deletion are exactly the old ones less that note, the payments exactly the old ones less its payment; clients, vehicles and users are unchanged |
| Store.ClienteInsertConsistent | app/routes.py:309-324 | a client under a new rut is accepted by the database exactly when its columns fit their widths |
| Store.VehiculoInsertAccepted | app/routes.py:328-346 | a vehicle whose columns fit and whose chassis and engine numbers are unused is accepted by the database |
| Store.VehiculoInsertAcceptedOnlyIf | app/routes.py:328-346 | a vehicle the database accepts fits its columns and reuses no chassis or engine number |
| Store.VehiculoInsertConsistent | app/routes.py:328-346 | a vehicle under a new patente is accepted exactly when its columns fit and its chassis and engine numbers are unused |
| Store.Dealership.Valid | app/models.py:6-76 | the five tables together satisfy every database constraint, i.e. a commit would succeed |
| Store.Dealership.constructor | app/models.py:6-76 | the empty database satisfies every constraint |
| Store.Dealership.Rollback | app/routes.py:151-156 | a rollback restores every table to the saved state |
| Store.Dealership.CrearNotaVenta | app/routes.py:124-158 | a rejected form writes nothing. A database error rolls everything back. Otherwise exactly one new payment and one new note under fresh positive ids are added, and the database stays consistent |
| Store.Dealership.EditarNotaVenta | app/routes.py:160-196 | an unknown folio is a 404. A rejected form or a database error leaves the tables as they were. Otherwise exactly that note and its payment are updated, and the database stays consistent |
| Store.Dealership.EliminarNotaVenta | app/routes.py:198-215 | an unknown folio is a 404. A database error leaves the tables as they were. Otherwise exactly that note and its payment are removed, and the database stays consistent |
| Store.Dealership.CrearCliente | app/routes.py:309-324 | the client is stored exactly when there is no database error, the rut is new and the columns fit; nothing else changes |
| Store.Dealership.CrearVehiculo | app/routes.py:328-346 | the vehicle is stored exactly when there is no database error, the patente, chassis and engine numbers are new and the columns fit; nothing else changes |
| Listing.ClampPerPage | app/routes.py:31-32 | the page size is always 20, 30 or 50; those values are kept and any other becomes 20 |
| Listing.ClampPerPageIdempotent | app/routes.py:31-32 | clamping twice is the same as clamping once |
| Listing.JoinKeepsEveryNota | app/routes.py:34 | with the foreign keys in place, the join with clients and vehicles drops no note |
| Listing.JoinRows | app/routes.py:34 | the rows of the inner join of notes with their client and vehicle |
| Listing.FolioMatches | app/routes.py:40 | the folio, written as `str(id)`, contains the query |
| Listing.ClienteMatches | app/routes.py:42 | the client's name, surname or rut contains the query |
| Listing.VehiculoMatches | app/routes.py:44 | the vehicle's make, model or patente contains the query |
| Listing.EstadoMatches | app/routes.py:46 | the note's state label contains the query |
| Listing.Matches | app/routes.py:36-57 | an empty query matches every row; each named field uses its columns, and any other field name searches all eight columns |
| Listing.DefaultFieldCoversEach | app/routes.py:36-57 | whatever a search on one field finds, the all-fields search finds too |
| Listing.Filter | app/routes.py:36-57 | the filter keeps exactly the rows that match the field and query, each matching row as often as it was given |
| Listing.NewestFirst | app/routes.py:59 | every row's sale date is on or after the sale dates of the rows after it |
| Listing.InsertByDate | app/routes.py:59 | inserting into a newest-first list keeps it newest-first and adds exactly that row |
| Listing.SortNewestFirst | app/routes.py:59 | the sort is newest-first and a permutation of its input |
| Listing.Search | app/routes.py:34-61 | the listing is newest-first, is a permutation of the filtered rows, and holds exactly the matching rows |
| Listing.FilterKeepsAll | app/routes.py:36 | when every row matches, the filter keeps the list as it is |
| Listing.EmptyQueryListsAll | app/routes.py:36 | an empty query lists every row |
| Listing.FilterWithinDefault | app/routes.py:47-57 | the filter on any field keeps a sub-multiset of what the all-fields filter keeps |
| Listing.DefaultSearchContainsFieldSearch | app/routes.py:39-59 | the all-fields listing contains every row of a one-field listing, at least as often |
| Listing.EmptySearchShowsEveryNota | app/routes.py:34-61 | with an empty query every stored note appears in the listing |
| Money.Group | app/routes.py:297 | the digits grouped in threes from the right, separated by the given character |
| Money.CommaFormat | app/routes.py:297 | `"{:,.0f}".format(n)` for an integer: the sign, then the grouped digits of the magnitude |
| Money.FormatMonto | app/routes.py:297 | the amount as printed: `"${:,.0f}".format(n).replace(',', '.')` |
| Money.GroupShape | app/routes.py:297 | grouping digits gives groups of three from the right with a first group of one to three digits, and a separator every fourth position |
| Money.GroupRemoveSep | app/routes.py:297 | removing the separators from grouped digits gives the digits back |
| Money.GroupReplaceSep | app/routes.py:297 | replacing the `,` separator by `.` gives the same as grouping with `.` |
| Money.FormatMontoUsesDots | app/routes.py:297 | the printed amount is `$`, the sign, then the magnitude's digits grouped in threes with `.` |
| Money.FormatMontoRoundTrip | app/routes.py:297 | dropping the `.`s and the `$` from the printed amount gives back `str(n)` |
| Money.FormatMontoShape | app/routes.py:297 | the printed amount starts with `$`, has `-` next exactly for negative amounts, and then well-formed groups |
| Money.FormatMontoExample | app/routes.py:297 | 12500000 prints as `$12.500.000` |
| Money.FormatMontoNegativeExample | app/routes.py:297 | -950 prints as `$-950` |
| Auth.UserWithEmail | app/auth.py:38 | the user lookup by e-mail finds a user with that e-mail, or reports that none has it |
| Auth.FirstUserConsistent | app/auth.py:18-21 | the first user of an empty table is accepted by the database exactly when its columns fit |
| Auth.Register | app/auth.py:9-24 | registration is closed once a user exists. Otherwise a rejected form stores nothing. An accepted one stores exactly one user with the hash of the password, unless the commit fails. Other tables never change |
| Auth.Login | app/auth.py:26-45 | an authenticated caller is sent on, and an empty user table sends the caller to registration. A caller is logged in exactly when the form is valid and some user has that e-mail and password. A valid form with no such user gives invalid credentials. Otherwise the session is unchanged |
| Auth.Session.constructor | app/auth.py:28 | a new session is anonymous: `current_user` is not authenticated |
| Auth.Logout | app/auth.py:47-51 | after logout the session has no user |

## Left out

- The PDF layout (fonts, cells, header and footer) is not modelled. Only the amount string it prints is.
- Pagination (`page`, `paginate`), templates, redirects, flash messages, CSRF tokens and the
  `login_required` guard belong to the web framework and are not modelled.
- `remember_me` and the `next` redirect after login are not modelled. The session only
  records the logged-in user.
- The `created_at` and `updated_at` timestamps come from the clock and are left out of the records.
- `LIKE` is read as literal, case-sensitive substring containment. The database's case folding
  and the `%`/`_` wildcards inside a query are not modelled.
- E-mail syntax (`Email()`), password hashing and password checking live in libraries
  outside this model. They are function parameters.
- Date parsing (`DateField`, `%Y-%m-%d`) is not modelled. A date that does not parse reaches
  the validator as `None`, and so does an integer that does not parse.
- Any database error other than a constraint violation (connection loss, a lock) is the
  `fault` parameter of each handler.
- Models.Consistent: the constraints are those of a database that enforces `String(n)` widths
  and foreign keys, such as PostgreSQL. The default SQLite database (config.py:11-12) enforces
  neither, because `PRAGMA foreign_keys` is never set. There an over-long rut or a dangling
  reference would commit, where the model reports a failed commit.
- Models.ColumnsFit: `db.Integer` columns have a 32-bit range on PostgreSQL and MySQL. The
  model's integers are unbounded, and an out-of-range `ano`, `valor`, `total` or `monto_final`
  is one of the database errors the `fault` parameter stands for.
- Listing.EstadoMatches: on PostgreSQL, `LIKE` on the native `estado` enumeration
  (app/routes.py:46, 56) raises an error. The model reads it as matching the state's label,
  as SQLite does.
- Store.Dealership.CrearCliente: the commit at app/routes.py:320-321 is outside any `try`. So
  every commit error ends in a server error, whether it is a taken rut, a column too wide or
  something else. The request teardown then rolls the session back. `added == false` stands for
  all of these.
- Store.Dealership.CrearVehiculo: likewise for app/routes.py:342-343. That covers a taken
  patente, chassis number or engine number, a column too wide, or any other database error.
- Auth.Register: likewise for app/auth.py:20-21. `RegisterFailed` stands for any commit error,
  which the application turns into a server error.
- Auth.Register: requests are modelled one at a time. The gate checks for a user
  (app/auth.py:12) and only later inserts (app/auth.py:20-21). So two simultaneous
  registrations on an empty table can both pass and store two users. "Exactly one user"
  holds only for requests that do not overlap. No other handler is modelled under
  concurrency either.
- The column default `pendiente` of `notas_de_venta.estado` (app/models.py:67) is not
  modelled. The handlers never reach it, because the form requires a state
  (app/forms.py:36-40) and every note is stored with the submitted one.
- `ClienteForm` and `VehiculoForm` are imported by `app/routes.py:12` but are not defined in
  `app/forms.py`. Their validation is therefore not modelled: the client and vehicle handlers
  take the record the form would build. As written, that import raises `ImportError`, so
  `app/routes.py` cannot load and `create_app` (`app/__init__.py:30`) fails. The model
  describes the handlers as they would run once those forms exist.
- The second listing body in `app/routes.py:71-117` comes after a `return` and never runs. It
  is not modelled.
- The `user_loader` (`app/models.py:20-22`) is not modelled, nor are the application factory,
  the configuration and the WSGI entry point. The session's `currentUser` stands for the user
  the loader found: a session whose stored id names no user is anonymous in the application,
  and `None` in the model.
- Money.FormatMonto: only amounts below 2^53 in magnitude are covered. Above that the float
  conversion done by the `f` format rounds the amount, and this is not modelled.
