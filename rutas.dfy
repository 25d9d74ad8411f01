/** The route handlers of the service as functions from the database and the
    request fields to the new database and the outcome. Each one runs its
    chain of guards in the order of the handler and then makes at most one
    insert, update or delete. A failed guard, and a TypeError thrown by
    `toUpperCase` on a value that is not a string, are reported as an
    error kind and leave the database as it was. */
module Rutas {
  import opened Js
  import opened Formato
  import opened Tablas

  /** Which guard failed. */
  datatype ErrorKind =
    | FaltanDatos         // a required field is falsy
    | NoEsTexto           // `toUpperCase` applied to something that is not a string
    | NombreDuplicado     // a category or book with the upper-cased name exists
    | EmailDuplicado      // a person with the upper-cased email exists
    | CategoriaNoExiste
    | PersonaNoExiste
    | LibroNoExiste
    | CategoriaConLibros  // some book belongs to the category
    | PersonaConLibros    // some book is on loan to the person
    | YaPrestado          // the book already has a borrower
    | NoPrestado          // the book has no borrower
    | PrestadoNoSeBorra   // the book is on loan
    | SoloDescripcion     // a field other than the description was given

  /** What a successful handler sends: one object, an array of renamed rows,
      the number of deleted rows, or a fixed confirmation message. */
  datatype Body = Objeto(obj: Record) | Filas(filas: seq<Record>) | Borradas(count: nat) | Mensaje

  datatype Outcome = Ok(body: Body) | Fail(error: ErrorKind)

  datatype Reply = Reply(after: Db, out: Outcome)

  // ---------------------------------------------------------------- /categoria

  /** POST /categoria */
  function PostCategoria(db: Db, nombre: Value): (r: Reply)
    ensures r.out.Fail? ==> r.after == db
    ensures r.out.Ok? ==> r.after.prestatarios == db.prestatarios && r.after.libros == db.libros
  {
    if !Truthy(nombre) then Reply(db, Fail(FaltanDatos))
    else if !nombre.Str? then Reply(db, Fail(NoEsTexto))
    else
      var n := ToUpper(nombre.s);
      if CategoriaConNombre(db, n) then Reply(db, Fail(NombreDuplicado))
      else
        var id := db.nextCategoria;
        Reply(db.(categorias := db.categorias[id := Categoria(n)], nextCategoria := id + 1),
              Ok(Objeto(map["id" := Num(id), "nombre" := Str(n)])))
  }

  /** GET /categoria/:id */
  function GetCategoria(db: Db, id: int): (r: Outcome)
    ensures r.Ok? <==> id in db.categorias
    ensures r.Ok? ==> r.body == Filas([CategoriaRespuesta(id, db.categorias[id])])
  {
    if id !in db.categorias then Fail(CategoriaNoExiste)
    else
      AdaptaCategoria(id, db.categorias[id]);
      Ok(Filas(AdaptaNombres([CategoriaFila(id, db.categorias[id])], CATEGORIAS)))
  }

  /** DELETE /categoria/:id: the books are checked before the category itself. */
  function DeleteCategoria(db: Db, id: int): (r: Reply)
    ensures r.out.Fail? ==> r.after == db
    ensures r.out.Ok? ==> r.after.prestatarios == db.prestatarios && r.after.libros == db.libros
  {
    if LibrosDeCategoria(db, id) then Reply(db, Fail(CategoriaConLibros))
    else if id !in db.categorias then Reply(db, Fail(CategoriaNoExiste))
    else Reply(db.(categorias := db.categorias - {id}), Ok(Borradas(1)))
  }

  // ---------------------------------------------------------------- /persona

  /** POST /persona: `alias` is not among the required fields, but its
      `toUpperCase` throws when it is missing. */
  function PostPersona(db: Db, nombre: Value, apellido: Value, alias: Value, email: Value): (r: Reply)
    ensures r.out.Fail? ==> r.after == db
    ensures r.out.Ok? ==> r.after.categorias == db.categorias && r.after.libros == db.libros
  {
    if !Truthy(nombre) || !Truthy(apellido) || !Truthy(email) then Reply(db, Fail(FaltanDatos))
    else if !email.Str? then Reply(db, Fail(NoEsTexto))
    else
      var e := ToUpper(email.s);
      if PrestatarioConEmail(db, e) then Reply(db, Fail(EmailDuplicado))
      else if !nombre.Str? || !apellido.Str? || !alias.Str? then Reply(db, Fail(NoEsTexto))
      else
        var id := db.nextPrestatario;
        var p := Persona(ToUpper(nombre.s), ToUpper(apellido.s), ToUpper(alias.s), e);
        Reply(db.(prestatarios := db.prestatarios[id := p], nextPrestatario := id + 1),
              Ok(Filas(AdaptaNombres([PrestatarioFila(id, p)], PRESTATARIOS))))
  }

  /** GET /persona/:id */
  function GetPersona(db: Db, id: int): (r: Outcome)
    ensures r.Ok? <==> id in db.prestatarios
    ensures r.Ok? ==> r.body == Filas([PrestatarioRespuesta(id, db.prestatarios[id])])
  {
    if id !in db.prestatarios then Fail(PersonaNoExiste)
    else
      AdaptaPrestatario(id, db.prestatarios[id]);
      Ok(Filas(AdaptaNombres([PrestatarioFila(id, db.prestatarios[id])], PRESTATARIOS)))
  }

  /** PUT /persona/:id: the email is not among the columns it sets. */
  function PutPersona(db: Db, id: int, nombre: Value, apellido: Value, alias: Value): (r: Reply)
    ensures r.out.Fail? ==> r.after == db
    ensures r.out.Ok? ==> r.after.categorias == db.categorias && r.after.libros == db.libros
    ensures r.out.Ok? ==> r.after.nextPrestatario == db.nextPrestatario && r.after.prestatarios.Keys == db.prestatarios.Keys
  {
    if !Truthy(nombre) || !Truthy(apellido) then Reply(db, Fail(FaltanDatos))
    else if id !in db.prestatarios then Reply(db, Fail(PersonaNoExiste))
    else if !nombre.Str? || !apellido.Str? || !alias.Str? then Reply(db, Fail(NoEsTexto))
    else
      var p := db.prestatarios[id].(nombre := ToUpper(nombre.s), apellido := ToUpper(apellido.s), alias := ToUpper(alias.s));
      Reply(db.(prestatarios := db.prestatarios[id := p]),
            Ok(Filas(AdaptaNombres([PrestatarioFila(id, p)], PRESTATARIOS))))
  }

  /** DELETE /persona/:id: the person is checked before their books. */
  function DeletePersona(db: Db, id: int): (r: Reply)
    ensures r.out.Fail? ==> r.after == db
    ensures r.out.Ok? ==> r.after.categorias == db.categorias && r.after.libros == db.libros
  {
    if id !in db.prestatarios then Reply(db, Fail(PersonaNoExiste))
    else if LibrosPrestadosA(db, id) then Reply(db, Fail(PersonaConLibros))
    else Reply(db.(prestatarios := db.prestatarios - {id}), Ok(Mensaje))
  }

  // ---------------------------------------------------------------- /libro

  /** POST /libro: a new book is available; `descripcion` is not among the
      required fields, but its `toUpperCase` throws when it is missing. */
  function PostLibro(db: Db, nombre: Value, descripcion: Value, categoriaId: Option<int>): (r: Reply)
    ensures r.out.Fail? ==> r.after == db
    ensures r.out.Ok? ==> r.after.categorias == db.categorias && r.after.prestatarios == db.prestatarios
  {
    if !Truthy(nombre) || !TruthyId(categoriaId) then Reply(db, Fail(FaltanDatos))
    else if !nombre.Str? then Reply(db, Fail(NoEsTexto))
    else
      var n := ToUpper(nombre.s);
      if LibroConNombre(db, n) then Reply(db, Fail(NombreDuplicado))
      else if categoriaId.value !in db.categorias then Reply(db, Fail(CategoriaNoExiste))
      else if !descripcion.Str? then Reply(db, Fail(NoEsTexto))
      else
        var id := db.nextLibro;
        var l := Libro(n, ToUpper(descripcion.s), categoriaId.value, None);
        Reply(db.(libros := db.libros[id := l], nextLibro := id + 1),
              Ok(Filas(AdaptaNombres([LibroFila(id, l)], LIBROS))))
  }

  /** GET /libro/:id */
  function GetLibro(db: Db, id: int): (r: Outcome)
    ensures r.Ok? <==> id in db.libros
    ensures r.Ok? ==> r.body == Filas([LibroRespuesta(id, db.libros[id])])
  {
    if id !in db.libros then Fail(LibroNoExiste)
    else
      AdaptaLibro(id, db.libros[id]);
      Ok(Filas(AdaptaNombres([LibroFila(id, db.libros[id])], LIBROS)))
  }

  /** The update of PUT /libro/:id once its guards have passed: only the description. */
  function CambiaDescripcion(db: Db, id: int, descripcion: string): (r: Reply)
    requires id in db.libros
    ensures r.after == db.(libros := db.libros[id := db.libros[id].(descripcion := ToUpper(descripcion))])
    ensures r.out.Ok? && IsUpper(r.after.libros[id].descripcion)
  {
    var l := db.libros[id].(descripcion := ToUpper(descripcion));
    Reply(db.(libros := db.libros[id := l]), Ok(Filas(AdaptaNombres([LibroFila(id, l)], LIBROS))))
  }

  /** PUT /libro/:id as written: the guard tests `categoria`, a field the
      request is not meant to carry, where the message and the request format
      name `categoria_id`. */
  function PutLibroAsWritten(db: Db, id: int, nombre: Value, descripcion: Value, categoria: Value,
                             categoriaId: Option<int>, personaId: Option<int>): (r: Reply)
    ensures r.out.Fail? ==> r.after == db
    ensures r.out.Ok? ==> r.after.categorias == db.categorias && r.after.prestatarios == db.prestatarios
  {
    if id !in db.libros then Reply(db, Fail(LibroNoExiste))
    else if Truthy(nombre) || Truthy(categoria) || TruthyId(personaId) then Reply(db, Fail(SoloDescripcion))
    else if !descripcion.Str? then Reply(db, Fail(NoEsTexto))
    else CambiaDescripcion(db, id, descripcion.s)
  }

  /** PUT /libro/:id as intended: rejects a request that gives `nombre`,
      `categoria_id` or `persona_id`, so it only ever changes the description. */
  function PutLibro(db: Db, id: int, nombre: Value, descripcion: Value, categoria: Value,
                    categoriaId: Option<int>, personaId: Option<int>): (r: Reply)
    ensures r.out.Fail? ==> r.after == db
    ensures r.out.Ok? ==> r.after.categorias == db.categorias && r.after.prestatarios == db.prestatarios
  {
    if id !in db.libros then Reply(db, Fail(LibroNoExiste))
    else if Truthy(nombre) || TruthyId(categoriaId) || TruthyId(personaId) then Reply(db, Fail(SoloDescripcion))
    else if !descripcion.Str? then Reply(db, Fail(NoEsTexto))
    else CambiaDescripcion(db, id, descripcion.s)
  }

  /** PUT /libro/prestar/:id. The route parameter is a non-empty string, so
      only `persona_id` can fail the missing-field guard. */
  function PrestarLibro(db: Db, id: int, personaId: Option<int>): (r: Reply)
    ensures r.out.Fail? ==> r.after == db
    ensures r.out.Ok? ==> r.after.categorias == db.categorias && r.after.prestatarios == db.prestatarios
  {
    if !TruthyId(personaId) then Reply(db, Fail(FaltanDatos))
    else if id !in db.libros then Reply(db, Fail(LibroNoExiste))
    else if db.libros[id].prestatarioId.Some? then Reply(db, Fail(YaPrestado))
    else if personaId.value !in db.prestatarios then Reply(db, Fail(PersonaNoExiste))
    else Reply(db.(libros := db.libros[id := db.libros[id].(prestatarioId := personaId)]), Ok(Mensaje))
  }

  /** PUT /libro/devolver/:id */
  function DevolverLibro(db: Db, id: int): (r: Reply)
    ensures r.out.Fail? ==> r.after == db
    ensures r.out.Ok? ==> r.after.categorias == db.categorias && r.after.prestatarios == db.prestatarios
  {
    if id !in db.libros then Reply(db, Fail(LibroNoExiste))
    else if db.libros[id].prestatarioId.None? then Reply(db, Fail(NoPrestado))
    else Reply(db.(libros := db.libros[id := db.libros[id].(prestatarioId := None)]), Ok(Mensaje))
  }

  /** DELETE /libro/:id */
  function DeleteLibro(db: Db, id: int): (r: Reply)
    ensures r.out.Fail? ==> r.after == db
    ensures r.out.Ok? ==> r.after.categorias == db.categorias && r.after.prestatarios == db.prestatarios
  {
    if id !in db.libros then Reply(db, Fail(LibroNoExiste))
    else if db.libros[id].prestatarioId.Some? then Reply(db, Fail(PrestadoNoSeBorra))
    else Reply(db.(libros := db.libros - {id}), Ok(Mensaje))
  }
}
