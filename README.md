# Library loans service: a Dafny model

The service keeps a small library in three tables:
- `categorias`: categories, each with a name;
- `prestatarios`: people who borrow books, with first name, surname, alias and email;
- `libros`: books, each with a name, a description, a category and, while on loan, the id of its borrower.

Every HTTP route runs a short chain of guards and then makes at most one insert, update or delete. The guards are:
- a required field is missing;
- an upper-cased name or email already exists;
- a referenced row does not exist;
- a row is still referenced;
- the book is in the wrong loan state.

The model is laid out as follows:
- `Js` (js.dfy) models the request values. It has JavaScript truthiness (`!x`) and `toUpperCase`, whose TypeError on a value that is not a string is reported as an error.
- `Formato` (formato.dfy) models `adaptaNombresDeKeysAFormatoSalida`, which renames storage column names to response field names, against a reference renaming table.
- `Tablas` (tablas.dfy) holds the tables as maps keyed by id, together with their AUTO_INCREMENT counters. It also defines the invariant the handlers keep:
  - ids come from the counter;
  - each book's category exists, and so does each borrower;
  - category names, book names and emails are unique;
  - stored strings are upper-case.
- `Rutas` (rutas.dfy) gives one function per route handler except the three list routes (GET /categoria, GET /persona, GET /libro), which are the scan methods of `Servidor`. Each state-changing function maps the database and the request fields to the new database and a typed outcome, either success with a body or the kind of guard that failed. The three GET-by-id functions map the database and the id to the outcome alone.
- `Propiedades` (propiedades.dfy) holds what the handlers guarantee:
  - each route's guards in order, with both directions of each success condition;
  - frame conditions;
  - case-insensitive conflicts;
  - the loan state machine;
  - invariant preservation by every route and by any sequence of requests.
- `Servidor` (servidor.dfy) holds the service as a class `Biblioteca` whose map fields the handler methods update in place. Each state-changing method's contract ties its new state and its outcome to the `Rutas` function of the same name and keeps the invariant. Each GET-by-id method's outcome is that of its `Rutas` function. The three list methods (`GetCategorias`, `GetPersonas`, `GetLibros`) scan a table with a loop and return the renamed rows, each row once.

Two behaviours of `app.js` are not named by its guards' error messages, and the model follows the code:
- POST /persona does not require `alias` (app.js:215-218). It still fails, leaving the table unchanged, when `alias` is not a string, because `toUpperCase` throws before the insert (app.js:237).
- POST /libro behaves the same way for `descripcion` (app.js:419-422, app.js:445).

## Model

| member | source | states |
|---|---|---|
| Js.UpperChar | app.js:94 | a lower-case ASCII letter, or a Latin-1 letter whose capital is also in Latin-1 (U+00E0..U+00FE except U+00F7), moves 32 code points down to its capital; every other character is unchanged; the result is never lower-case |
| Js.ToUpper | app.js:94 | `toUpperCase` keeps the length, maps each character by `UpperChar` and yields an upper-case string |
| Js.UpperFixed | app.js:94 | upper-casing leaves an upper-case string unchanged |
| Js.ToUpperIdempotent | app.js:94 | upper-casing twice is upper-casing once |
| Js.ToUpperIgnoresCase | app.js:94 | two strings that differ only in letter case upper-case to the same string |
| Formato.MapRecords | app.js:38-42 | `datos.map(f)` has the length of `datos`, and element i is `f(datos[i])` |
| Formato.SalidaCategoriaIsRenaming | app.js:37-44 | the category builder produces exactly the fields id and nombre, taken from the matching storage columns |
| Formato.SalidaLibroIsRenaming | app.js:45-59 | the book builder produces exactly id, nombre, descripcion, categoria_id and persona_id, with persona_id taken from the borrower column |
| Formato.SalidaPrestatarioIsRenaming | app.js:60-73 | the person builder produces exactly id, nombre, apellido, alias and email from the matching storage columns |
| Formato.AdaptaNombres | app.js:34-75 | an unknown table kind gives the empty array; a known kind gives an array of the same length as the input |
| Formato.AdaptaNombresRenames | app.js:34-75 | for a known kind, element i of the result is the field renaming of row i, in the same order |
| Formato.RenamingUnique | app.js:34-75 | a renamed record is determined by its row, so the projection is a function of the row alone |
| Tablas.RespuestaCategoriaIsRenaming | app.js:37-44 | a stored category's response record is the renaming of its row |
| Tablas.RespuestaPrestatarioIsRenaming | app.js:60-73 | a stored person's response record is the renaming of its row |
| Tablas.RespuestaLibroIsRenaming | app.js:45-59 | a stored book's response record is the renaming of its row |
| Tablas.CategoriaRespuestaInjective | app.js:118-123 | category responses with different ids differ |
| Tablas.PrestatarioRespuestaInjective | app.js:260-269 | person responses with different ids differ |
| Tablas.LibroRespuestaInjective | app.js:475-485 | book responses with different ids differ |
| Tablas.AdaptaCategoria | app.js:142-148 | renaming a one-row category result gives the category's response record |
| Tablas.AdaptaPrestatario | app.js:287-295 | renaming a one-row person result gives the person's response record |
| Tablas.AdaptaLibro | app.js:507-515 | renaming a one-row book result gives the book's response record |
| Tablas.VaciaValid | app.js:14-29 | the empty database, with every counter at 1, satisfies the invariant |
| Tablas.SinReferenciasColgantes | app.js:169-187 | under the invariant, a missing category has no books and a missing person holds no book |
| Rutas.PostCategoria | app.js:87-104 | a failure leaves the database unchanged; a success touches only the categories |
| Rutas.GetCategoria | app.js:142-148 | succeeds exactly when the id exists, and the body is that category's one renamed row |
| Rutas.DeleteCategoria | app.js:169-187 | a failure leaves the database unchanged; a success touches neither people nor books |
| Rutas.PostPersona | app.js:217-247 | a failure, including a non-string `alias`, leaves the database unchanged; a success touches only the people |
| Rutas.GetPersona | app.js:287-295 | succeeds exactly when the id exists, and the body is that person's one renamed row |
| Rutas.PutPersona | app.js:322-349 | a failure leaves the database unchanged; a success keeps the other tables, the set of person ids and the counter |
| Rutas.DeletePersona | app.js:367-384 | a failure leaves the database unchanged; a success touches neither categories nor books |
| Rutas.PostLibro | app.js:421-457 | a failure, including a non-string `descripcion`, leaves the database unchanged; a success touches only the books |
| Rutas.GetLibro | app.js:507-515 | succeeds exactly when the id exists, and the body is that book's one renamed row |
| Rutas.CambiaDescripcion | app.js:559-568 | the update sets that book's description to the upper-cased one and changes nothing else: no other book, no other field, no other table and no counter; the description stored is upper-case |
| Rutas.PutLibroAsWritten | app.js:541-568 | PUT /libro/:id with the guard as written on `categoria`; a failure leaves the database unchanged; a success touches only the books |
| Rutas.PutLibro | app.js:541-568 | PUT /libro/:id with the guard on `categoria_id`; a failure leaves the database unchanged; a success touches only the books |
| Rutas.PrestarLibro | app.js:589-619 | a failure leaves the database unchanged; a success touches only the books |
| Rutas.DevolverLibro | app.js:639-655 | a failure leaves the database unchanged; a success touches only the books |
| Rutas.DeleteLibro | app.js:674-692 | a failure leaves the database unchanged; a success touches only the books |
| Propiedades.PostCategoriaGuards | app.js:87-104 | the guards in order: missing name, not a string, duplicate after upper-casing; success holds exactly when none fires, and then inserts the upper-cased name under a fresh id, returned as `{id, nombre}` |
| Propiedades.CategoriaCaseInsensitive | app.js:93-94 | once a name is stored, any name with the same upper-casing is refused as a duplicate |
| Propiedades.FictionScenario | app.js:87-104 | on an empty database "FICTION" is accepted and "fiction" is then refused as a duplicate |
| Propiedades.DeleteCategoriaGuards | app.js:169-187 | "has books" is reported before "does not exist"; success holds exactly when the category exists with no books, and removes only that category |
| Propiedades.PostPersonaGuards | app.js:217-247 | a missing field is reported first, then a duplicate email; success holds exactly when every field is present and a string and the upper-cased email is new, and then inserts the upper-cased person under a fresh id as the only row with that email, answering what GET /persona/:id then returns |
| Propiedades.EmailCaseInsensitive | app.js:223-228 | once an email is stored, any email with the same upper-casing is refused as a duplicate |
| Propiedades.PutPersonaGuards | app.js:322-349 | the guards in order; success holds exactly when they pass, and then only that person's nombre, apellido and alias change, never the email |
| Propiedades.DeletePersonaGuards | app.js:367-384 | "does not exist" is reported before "holds books"; success holds exactly when the person exists and holds no book, and removes only that person |
| Propiedades.DeleteGuardOrder | app.js:169-187 | on a missing id with dangling books the two delete routes report different guards |
| Propiedades.PostLibroGuards | app.js:421-457 | the guards in order: missing field, duplicate name, missing category; success holds exactly when none fires and name and description are strings, and then inserts an available, upper-cased book in an existing category under a fresh id, answering what GET /libro/:id then returns |
| Propiedades.LibroCaseInsensitive | app.js:426-432 | once a book name is stored, any name with the same upper-casing is refused as a duplicate |
| Propiedades.PutLibroGuards | app.js:541-568 | existence is checked first, then the forbidden fields; success holds exactly when they pass, and changes only that book's description |
| Propiedades.PutLibroAsWrittenAcceptsCategoriaId | app.js:550 | the handler as written accepts a request that sets `categoria_id`, which the corrected guard refuses |
| Propiedades.PutLibroAsWrittenGuards | app.js:541-568 | as written: existence first, then refusal when `nombre`, `categoria` or `persona_id` is truthy; success holds exactly when these pass and the description is a string, and then only that book's description changes, answering what GET /libro/:id then returns |
| Propiedades.PrestarGuards | app.js:589-619 | the guards in order: missing borrower, missing book, already on loan whatever the borrower, missing person; success holds exactly when none fires, and changes only that book's borrower |
| Propiedades.PrestarExclusive | app.js:600-603 | after a successful lend, every further lend of that book fails, as already on loan when it names a borrower, and changes nothing |
| Propiedades.DevolverGuards | app.js:639-655 | succeeds exactly when the book exists and is on loan; the book then becomes available and nothing else changes |
| Propiedades.PrestarDevolverRestores | app.js:615-654 | a successful lend followed by a return restores the database exactly, and the return succeeds |
| Propiedades.DevolverPrestarRestores | app.js:615-654 | on a valid database, a return followed by lending to the same borrower restores the database exactly |
| Propiedades.DeleteLibroGuards | app.js:674-692 | succeeds exactly when the book exists and is available, and removes only that book |
| Propiedades.PostCategoriaValid | app.js:87-104 | POST /categoria keeps the invariant |
| Propiedades.DeleteCategoriaValid | app.js:169-187 | DELETE /categoria/:id keeps the invariant, so no book is left with a missing category |
| Propiedades.PostPersonaValid | app.js:217-247 | POST /persona keeps the invariant |
| Propiedades.PutPersonaValid | app.js:322-349 | PUT /persona/:id keeps the invariant, email uniqueness included |
| Propiedades.DeletePersonaValid | app.js:367-384 | DELETE /persona/:id keeps the invariant, so no loan is left with a missing borrower |
| Propiedades.PostLibroValid | app.js:421-457 | POST /libro keeps the invariant |
| Propiedades.PutLibroValid | app.js:541-568 | PUT /libro/:id keeps the invariant |
| Propiedades.PutLibroAsWrittenValid | app.js:541-568 | PUT /libro/:id as written keeps the invariant |
| Propiedades.PrestarValid | app.js:589-619 | PUT /libro/prestar/:id keeps the invariant |
| Propiedades.DevolverValid | app.js:639-655 | PUT /libro/devolver/:id keeps the invariant |
| Propiedades.DeleteLibroValid | app.js:674-692 | DELETE /libro/:id keeps the invariant |
| Propiedades.StepValid | app.js:79-700 | every request, to whichever route, keeps the invariant; PUT /libro/:id is covered both as written and as corrected |
| Propiedades.RunValid | app.js:79-700 | any sequence of requests served one at a time from a valid database, the as-written PUT /libro/:id among them, keeps the invariant |
| Propiedades.LoanTransitions | app.js:577-700 | of all requests, the as-written and the corrected PUT /libro/:id included, only lending a book takes it from available to on loan, only returning it takes it back, and only deleting it removes it, which happens only while it is available |
| Servidor.Scan | app.js:118-119 | `SELECT * FROM t` returns every row of the table once; the query has no ORDER BY, and the scan picks increasing id order, one of the orders it allows |
| Servidor.Biblioteca.constructor | app.js:14-29 | a new service starts from the empty, valid database |
| Servidor.Biblioteca.PostCategoria | app.js:87-104 | the new tables and the outcome are those of `Rutas.PostCategoria`, and the invariant is kept |
| Servidor.Biblioteca.GetCategorias | app.js:118-123 | the response holds exactly the renamed categories, each once |
| Servidor.Biblioteca.GetCategoria | app.js:142-148 | the outcome is that of `Rutas.GetCategoria` |
| Servidor.Biblioteca.DeleteCategoria | app.js:169-187 | the new tables and the outcome are those of `Rutas.DeleteCategoria`, and the invariant is kept |
| Servidor.Biblioteca.PostPersona | app.js:217-247 | the new tables and the outcome are those of `Rutas.PostPersona`, and the invariant is kept |
| Servidor.Biblioteca.GetPersonas | app.js:260-269 | the response holds exactly the renamed people, each once, and is empty for an empty table |
| Servidor.Biblioteca.GetPersona | app.js:287-295 | the outcome is that of `Rutas.GetPersona` |
| Servidor.Biblioteca.PutPersona | app.js:322-349 | the new tables and the outcome are those of `Rutas.PutPersona`, and the invariant is kept |
| Servidor.Biblioteca.DeletePersona | app.js:367-384 | the new tables and the outcome are those of `Rutas.DeletePersona`, and the invariant is kept |
| Servidor.Biblioteca.PostLibro | app.js:421-457 | the new tables and the outcome are those of `Rutas.PostLibro`, and the invariant is kept |
| Servidor.Biblioteca.GetLibros | app.js:475-485 | the response holds exactly the renamed books, each once, and is empty for an empty table |
| Servidor.Biblioteca.GetLibro | app.js:507-515 | the outcome is that of `Rutas.GetLibro` |
| Servidor.Biblioteca.PutLibro | app.js:541-568 | the new tables and the outcome are those of the corrected `Rutas.PutLibro`, and the invariant is kept |
| Servidor.Biblioteca.PrestarLibro | app.js:589-619 | the new tables and the outcome are those of `Rutas.PrestarLibro`, and the invariant is kept |
| Servidor.Biblioteca.DevolverLibro | app.js:639-655 | the new tables and the outcome are those of `Rutas.DevolverLibro`, and the invariant is kept |
| Servidor.Biblioteca.DeleteLibro | app.js:674-692 | the new tables and the outcome are those of `Rutas.DeleteLibro`, and the invariant is kept |
| Servidor.LendTwice | app.js:589-655 | if the first lend succeeds, a second lend to anyone fails as already on loan, the return succeeds and the tables are as before |

## Left out

- Express wiring, the request and response objects and the HTTP status codes are left out. Each handler's inputs are parameters, and its reply is an outcome value.
- The Spanish message strings are left out. Only the error kind remains.
- The MySQL connection and SQL strings are left out. The tables are in-memory maps, and each query is the set operation it denotes.
- Logging (`console.log`, `console.error`) is left out because it has no effect on behaviour.
- Concurrent requests are left out. Racing requests can interleave a check with another request's write. The model serves one request at a time.
- MySQL collation is left out. MySQL may compare strings case- and accent-insensitively, and the model compares stored upper-cased strings exactly.
- Js.ToUpper: models upper-casing only for ASCII letters and Latin-1 letters whose capital is also in Latin-1 (U+00E0..U+00FE except U+00F7). Other Unicode case mappings are not modelled, such as ß to SS, ÿ to U+0178, µ to U+039C and letters outside Latin-1.
- Values in request fields are reduced to undefined, null, integers and strings. Floats, booleans, arrays and objects behave like integers here, being truthy or falsy and having no `toUpperCase`.
- Ids are integers. Ids given as strings and MySQL's coercion of them are left out.
- The `!req.params.id` test in the lend route is left out because the router never calls the handler with an empty id.
- Servidor.Biblioteca.GetPersonas: the 413 status on an empty table is not modelled; only the empty array sent with it is.
- Servidor.Biblioteca.GetLibros: the 413 status on an empty table is not modelled; only the empty array sent with it is.
- Servidor.Biblioteca.GetCategorias: states which rows the response holds and that they are distinct, not their order. MySQL promises no order without ORDER BY; `Servidor.Scan` picks increasing id order.
- The AUTO_INCREMENT counter is modelled as a counter that only grows. MySQL's reuse of ids after a restart is left out.
- Servidor.Biblioteca.PutLibro uses the corrected guard on `categoria_id`. The guard as written is `Rutas.PutLibroAsWritten`, whose guards, frame and invariant are proved in `Propiedades`; see Findings.

## Findings

| source | as written | input that shows it | evidently intended | confidence | as-written member | corrected member |
|---|---|---|---|---|---|---|
| app.js:550 | the "only the description may change" guard tests `req.body.categoria` | an existing book id with body `{descripcion: "x", categoria_id: 3}` is accepted | test `req.body.categoria_id`, the field the request format and the error message name | not executed | Rutas.PutLibroAsWritten, Propiedades.PutLibroAsWrittenAcceptsCategoriaId | Rutas.PutLibro, Propiedades.PutLibroGuards |
