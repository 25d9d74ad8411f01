/** What the route handlers guarantee: which guard answers for which request,
    what a successful request changes, the loan state machine of a book, and
    the invariant of the tables kept by every request. */
module Propiedades {
  import opened Js
  import opened Formato
  import opened Tablas
  import opened Rutas

  // ------------------------------------------------------------ frames

  /** `after` differs from `db` at most in the row of book `id`. */
  ghost predicate SoloCambiaLibro(db: Db, after: Db, id: int) {
    && after.categorias == db.categorias && after.prestatarios == db.prestatarios
    && after.nextCategoria == db.nextCategoria && after.nextPrestatario == db.nextPrestatario
    && after.nextLibro == db.nextLibro
    && after.libros.Keys == db.libros.Keys
    && forall k :: k in db.libros && k != id ==> after.libros[k] == db.libros[k]
  }

  /** `after` differs from `db` at most in the row of person `id`. */
  ghost predicate SoloCambiaPersona(db: Db, after: Db, id: int) {
    && after.categorias == db.categorias && after.libros == db.libros
    && after.nextCategoria == db.nextCategoria && after.nextPrestatario == db.nextPrestatario
    && after.nextLibro == db.nextLibro
    && after.prestatarios.Keys == db.prestatarios.Keys
    && forall k :: k in db.prestatarios && k != id ==> after.prestatarios[k] == db.prestatarios[k]
  }

  // ------------------------------------------------------------ /categoria

  /** POST /categoria: the guards in order, and on success one new category
      under a fresh id holding the upper-cased name. */
  lemma PostCategoriaGuards(db: Db, nombre: Value)
    requires Valid(db)
    ensures var r := PostCategoria(db, nombre);
      && (r.out == Fail(FaltanDatos) <==> !Truthy(nombre))
      && (r.out == Fail(NoEsTexto) <==> Truthy(nombre) && !nombre.Str?)
      && (r.out == Fail(NombreDuplicado) <==> Truthy(nombre) && nombre.Str? && CategoriaConNombre(db, ToUpper(nombre.s)))
      && (r.out.Ok? <==> Truthy(nombre) && nombre.Str? && !CategoriaConNombre(db, ToUpper(nombre.s)))
      && (r.out.Ok? ==>
            var id := db.nextCategoria;
            && id !in db.categorias
            && r.after.categorias == db.categorias[id := Categoria(ToUpper(nombre.s))]
            && r.out.body == Objeto(CategoriaRespuesta(id, Categoria(ToUpper(nombre.s))))
            && GetCategoria(r.after, id) == Ok(Filas([r.out.body.obj])))
  {
  }

  /** Names that differ only in case conflict: once `s` is stored, `t` is refused. */
  lemma CategoriaCaseInsensitive(db: Db, s: string, t: string)
    requires ToUpper(s) == ToUpper(t) && t != ""
    requires PostCategoria(db, Str(s)).out.Ok?
    ensures PostCategoria(PostCategoria(db, Str(s)).after, Str(t)).out == Fail(NombreDuplicado)
  {
    var after := PostCategoria(db, Str(s)).after;
    assert after.categorias[db.nextCategoria].nombre == ToUpper(t);
  }

  /** The scenario "FICTION" then "fiction" on an empty database. */
  lemma FictionScenario()
    ensures var r := PostCategoria(Vacia, Str("FICTION"));
      && r.out == Ok(Objeto(map["id" := Num(1), "nombre" := Str("FICTION")]))
      && PostCategoria(r.after, Str("fiction")).out == Fail(NombreDuplicado)
  {
    assert ToUpper("FICTION") == "FICTION";
    assert ToUpper("fiction") == "FICTION";
    CategoriaCaseInsensitive(Vacia, "FICTION", "fiction");
  }

  /** DELETE /categoria/:id succeeds iff the category exists and no book
      belongs to it; the books are looked at first; on success only that
      category goes. */
  lemma DeleteCategoriaGuards(db: Db, id: int)
    ensures var r := DeleteCategoria(db, id);
      && (r.out == Fail(CategoriaConLibros) <==> LibrosDeCategoria(db, id))
      && (r.out == Fail(CategoriaNoExiste) <==> !LibrosDeCategoria(db, id) && id !in db.categorias)
      && (r.out.Ok? <==> !LibrosDeCategoria(db, id) && id in db.categorias)
      && (r.out.Ok? ==> r.after == db.(categorias := db.categorias - {id}) && r.out.body == Borradas(1))
  {
  }

  // ------------------------------------------------------------ /persona

  /** POST /persona: the guards in order; on success one new person under a
      fresh id, every field upper-cased, the only row with that email, and
      the response is that row renamed. */
  lemma PostPersonaGuards(db: Db, nombre: Value, apellido: Value, alias: Value, email: Value)
    requires Valid(db)
    ensures var r := PostPersona(db, nombre, apellido, alias, email);
      && (r.out == Fail(FaltanDatos) <==> !Truthy(nombre) || !Truthy(apellido) || !Truthy(email))
      && (r.out == Fail(EmailDuplicado) <==>
            Truthy(nombre) && Truthy(apellido) && Truthy(email) && email.Str? && PrestatarioConEmail(db, ToUpper(email.s)))
      && (r.out.Ok? <==>
            Truthy(nombre) && Truthy(apellido) && Truthy(email) && nombre.Str? && apellido.Str? && alias.Str? && email.Str?
            && !PrestatarioConEmail(db, ToUpper(email.s)))
      && (r.out.Ok? ==>
            var id := db.nextPrestatario;
            var p := Persona(ToUpper(nombre.s), ToUpper(apellido.s), ToUpper(alias.s), ToUpper(email.s));
            && id !in db.prestatarios
            && r.after.prestatarios == db.prestatarios[id := p]
            && (forall k :: k in r.after.prestatarios && r.after.prestatarios[k].email == p.email ==> k == id)
            && r.out.body == Filas([PrestatarioRespuesta(id, p)])
            && GetPersona(r.after, id) == r.out)
  {
    var r := PostPersona(db, nombre, apellido, alias, email);
    if r.out.Ok? {
      var id := db.nextPrestatario;
      var p := Persona(ToUpper(nombre.s), ToUpper(apellido.s), ToUpper(alias.s), ToUpper(email.s));
      AdaptaPrestatario(id, p);
    }
  }

  /** Emails that differ only in case conflict. */
  lemma EmailCaseInsensitive(db: Db, nombre: Value, apellido: Value, alias: Value, s: string,
                             nombre': Value, apellido': Value, alias': Value, t: string)
    requires ToUpper(s) == ToUpper(t)
    requires Truthy(nombre') && Truthy(apellido') && t != ""
    requires PostPersona(db, nombre, apellido, alias, Str(s)).out.Ok?
    ensures PostPersona(PostPersona(db, nombre, apellido, alias, Str(s)).after, nombre', apellido', alias', Str(t)).out
            == Fail(EmailDuplicado)
  {
    var after := PostPersona(db, nombre, apellido, alias, Str(s)).after;
    assert after.prestatarios[db.nextPrestatario].email == ToUpper(t);
  }

  /** PUT /persona/:id: the guards in order; on success only that person
      changes, in `nombre`, `apellido` and `alias`, and keeps the email. */
  lemma PutPersonaGuards(db: Db, id: int, nombre: Value, apellido: Value, alias: Value)
    ensures var r := PutPersona(db, id, nombre, apellido, alias);
      && (r.out == Fail(FaltanDatos) <==> !Truthy(nombre) || !Truthy(apellido))
      && (r.out == Fail(PersonaNoExiste) <==> Truthy(nombre) && Truthy(apellido) && id !in db.prestatarios)
      && (r.out.Ok? <==> Truthy(nombre) && Truthy(apellido) && id in db.prestatarios && nombre.Str? && apellido.Str? && alias.Str?)
      && (r.out.Ok? ==>
            && SoloCambiaPersona(db, r.after, id)
            && r.after.prestatarios[id].email == db.prestatarios[id].email
            && r.after.prestatarios[id].nombre == ToUpper(nombre.s)
            && r.after.prestatarios[id].apellido == ToUpper(apellido.s)
            && r.after.prestatarios[id].alias == ToUpper(alias.s)
            && r.out.body == Filas([PrestatarioRespuesta(id, r.after.prestatarios[id])]))
  {
    var r := PutPersona(db, id, nombre, apellido, alias);
    if r.out.Ok? {
      AdaptaPrestatario(id, r.after.prestatarios[id]);
    }
  }

  /** DELETE /persona/:id succeeds iff the person exists and holds no book;
      existence is looked at first; on success only that person goes. */
  lemma DeletePersonaGuards(db: Db, id: int)
    ensures var r := DeletePersona(db, id);
      && (r.out == Fail(PersonaNoExiste) <==> id !in db.prestatarios)
      && (r.out == Fail(PersonaConLibros) <==> id in db.prestatarios && LibrosPrestadosA(db, id))
      && (r.out.Ok? <==> id in db.prestatarios && !LibrosPrestadosA(db, id))
      && (r.out.Ok? ==> r.after == db.(prestatarios := db.prestatarios - {id}))
  {
  }

  /** The two delete handlers run their guards in opposite orders: on a
      (corrupt) database where a missing id is still referenced, the category
      handler blames the books and the person handler the missing row. */
  lemma DeleteGuardOrder(db: Db, id: int)
    ensures id !in db.categorias && LibrosDeCategoria(db, id) ==> DeleteCategoria(db, id).out == Fail(CategoriaConLibros)
    ensures id !in db.prestatarios && LibrosPrestadosA(db, id) ==> DeletePersona(db, id).out == Fail(PersonaNoExiste)
  {
  }

  // ------------------------------------------------------------ /libro

  /** POST /libro: the guards in order; on success one new available book
      under a fresh id in an existing category, and the response is what
      GET /libro/:id then returns. */
  lemma PostLibroGuards(db: Db, nombre: Value, descripcion: Value, categoriaId: Option<int>)
    requires Valid(db)
    ensures var r := PostLibro(db, nombre, descripcion, categoriaId);
      && (r.out == Fail(FaltanDatos) <==> !Truthy(nombre) || !TruthyId(categoriaId))
      && (r.out == Fail(NombreDuplicado) <==>
            Truthy(nombre) && TruthyId(categoriaId) && nombre.Str? && LibroConNombre(db, ToUpper(nombre.s)))
      && (r.out == Fail(CategoriaNoExiste) <==>
            Truthy(nombre) && TruthyId(categoriaId) && nombre.Str? && !LibroConNombre(db, ToUpper(nombre.s))
            && categoriaId.value !in db.categorias)
      && (r.out.Ok? <==>
            Truthy(nombre) && TruthyId(categoriaId) && nombre.Str? && descripcion.Str?
            && !LibroConNombre(db, ToUpper(nombre.s)) && categoriaId.value in db.categorias)
      && (r.out.Ok? ==>
            var id := db.nextLibro;
            var l := Libro(ToUpper(nombre.s), ToUpper(descripcion.s), categoriaId.value, None);
            && id !in db.libros
            && r.after.libros == db.libros[id := l]
            && r.out.body == Filas([LibroRespuesta(id, l)])
            && GetLibro(r.after, id) == r.out)
  {
    var r := PostLibro(db, nombre, descripcion, categoriaId);
    if r.out.Ok? {
      AdaptaLibro(db.nextLibro, Libro(ToUpper(nombre.s), ToUpper(descripcion.s), categoriaId.value, None));
    }
  }

  /** Book names that differ only in case conflict. */
  lemma LibroCaseInsensitive(db: Db, s: string, descripcion: Value, categoriaId: Option<int>,
                             t: string, descripcion': Value, categoriaId': Option<int>)
    requires ToUpper(s) == ToUpper(t) && t != "" && TruthyId(categoriaId')
    requires PostLibro(db, Str(s), descripcion, categoriaId).out.Ok?
    ensures PostLibro(PostLibro(db, Str(s), descripcion, categoriaId).after, Str(t), descripcion', categoriaId').out
            == Fail(NombreDuplicado)
  {
    var after := PostLibro(db, Str(s), descripcion, categoriaId).after;
    assert after.libros[db.nextLibro].nombre == ToUpper(t);
  }

  /** PUT /libro/:id: existence first, then the forbidden fields; on success
      only the description of that book changes. */
  lemma PutLibroGuards(db: Db, id: int, nombre: Value, descripcion: Value, categoria: Value,
                       categoriaId: Option<int>, personaId: Option<int>)
    ensures var r := PutLibro(db, id, nombre, descripcion, categoria, categoriaId, personaId);
      && (r.out == Fail(LibroNoExiste) <==> id !in db.libros)
      && (r.out == Fail(SoloDescripcion) <==>
            id in db.libros && (Truthy(nombre) || TruthyId(categoriaId) || TruthyId(personaId)))
      && (r.out.Ok? <==>
            id in db.libros && !Truthy(nombre) && !TruthyId(categoriaId) && !TruthyId(personaId) && descripcion.Str?)
      && (r.out.Ok? ==>
            && SoloCambiaLibro(db, r.after, id)
            && r.after.libros[id] == db.libros[id].(descripcion := ToUpper(descripcion.s))
            && r.out == GetLibro(r.after, id))
  {
    var r := PutLibro(db, id, nombre, descripcion, categoria, categoriaId, personaId);
    if r.out.Ok? {
      AdaptaLibro(id, r.after.libros[id]);
    }
  }

  /** The handler as written accepts a request that sets `categoria_id`
      (and then ignores it); the corrected handler refuses it. */
  lemma PutLibroAsWrittenAcceptsCategoriaId(db: Db, id: int)
    requires id in db.libros
    ensures var r := PutLibroAsWritten(db, id, Undefined, Str("x"), Undefined, Some(3), None);
      && r.out.Ok?
      && r.after.libros[id].categoriaId == db.libros[id].categoriaId
    ensures PutLibro(db, id, Undefined, Str("x"), Undefined, Some(3), None).out == Fail(SoloDescripcion)
  {
  }

  /** PUT /libro/:id as written: existence first, then the forbidden fields
      `nombre`, `categoria` and `persona_id`; on success only the description
      of that book changes, and the response is what GET /libro/:id then returns. */
  lemma PutLibroAsWrittenGuards(db: Db, id: int, nombre: Value, descripcion: Value, categoria: Value,
                                categoriaId: Option<int>, personaId: Option<int>)
    ensures var r := PutLibroAsWritten(db, id, nombre, descripcion, categoria, categoriaId, personaId);
      && (r.out == Fail(LibroNoExiste) <==> id !in db.libros)
      && (r.out == Fail(SoloDescripcion) <==>
            id in db.libros && (Truthy(nombre) || Truthy(categoria) || TruthyId(personaId)))
      && (r.out.Ok? <==>
            id in db.libros && !Truthy(nombre) && !Truthy(categoria) && !TruthyId(personaId) && descripcion.Str?)
      && (r.out.Ok? ==>
            && SoloCambiaLibro(db, r.after, id)
            && r.after.libros[id] == db.libros[id].(descripcion := ToUpper(descripcion.s))
            && r.out == GetLibro(r.after, id))
  {
    var r := PutLibroAsWritten(db, id, nombre, descripcion, categoria, categoriaId, personaId);
    if r.out.Ok? {
      AdaptaLibro(id, r.after.libros[id]);
    }
  }

  /** PUT /libro/prestar/:id: the guards in order (a book on loan is refused
      whoever the requested borrower is); on success only that book's
      borrower changes, to `persona_id`. */
  lemma PrestarGuards(db: Db, id: int, personaId: Option<int>)
    ensures var r := PrestarLibro(db, id, personaId);
      && (r.out == Fail(FaltanDatos) <==> !TruthyId(personaId))
      && (r.out == Fail(LibroNoExiste) <==> TruthyId(personaId) && id !in db.libros)
      && (r.out == Fail(YaPrestado) <==> TruthyId(personaId) && id in db.libros && db.libros[id].prestatarioId.Some?)
      && (r.out == Fail(PersonaNoExiste) <==>
            TruthyId(personaId) && id in db.libros && db.libros[id].prestatarioId.None?
            && personaId.value !in db.prestatarios)
      && (r.out.Ok? <==>
            TruthyId(personaId) && id in db.libros && db.libros[id].prestatarioId.None?
            && personaId.value in db.prestatarios)
      && (r.out.Ok? ==>
            SoloCambiaLibro(db, r.after, id) && r.after.libros[id] == db.libros[id].(prestatarioId := personaId))
  {
  }

  /** After a successful lend, every further lend of the book fails and
      changes nothing. */
  lemma PrestarExclusive(db: Db, id: int, p: Option<int>, q: Option<int>)
    requires PrestarLibro(db, id, p).out.Ok?
    ensures var after := PrestarLibro(db, id, p).after;
      && PrestarLibro(after, id, q).out == (if TruthyId(q) then Fail(YaPrestado) else Fail(FaltanDatos))
      && PrestarLibro(after, id, q).after == after
  {
  }

  /** PUT /libro/devolver/:id succeeds iff the book exists and is on loan;
      on success only its borrower changes, to null. */
  lemma DevolverGuards(db: Db, id: int)
    ensures var r := DevolverLibro(db, id);
      && (r.out == Fail(LibroNoExiste) <==> id !in db.libros)
      && (r.out == Fail(NoPrestado) <==> id in db.libros && db.libros[id].prestatarioId.None?)
      && (r.out.Ok? <==> id in db.libros && db.libros[id].prestatarioId.Some?)
      && (r.out.Ok? ==> SoloCambiaLibro(db, r.after, id) && r.after.libros[id] == db.libros[id].(prestatarioId := None))
  {
  }

  /** A lend followed by a return restores the database exactly. */
  lemma PrestarDevolverRestores(db: Db, id: int, p: Option<int>)
    requires PrestarLibro(db, id, p).out.Ok?
    ensures var after := PrestarLibro(db, id, p).after;
      DevolverLibro(after, id).out.Ok? && DevolverLibro(after, id).after == db
  {
    var after := PrestarLibro(db, id, p).after;
    assert DevolverLibro(after, id).after.libros == db.libros;
  }

  /** On a valid database a return followed by lending the book to the same
      person again restores the database exactly. */
  lemma DevolverPrestarRestores(db: Db, id: int)
    requires Valid(db)
    requires DevolverLibro(db, id).out.Ok?
    ensures var after := DevolverLibro(db, id).after;
      PrestarLibro(after, id, db.libros[id].prestatarioId).out.Ok?
      && PrestarLibro(after, id, db.libros[id].prestatarioId).after == db
  {
    var after := DevolverLibro(db, id).after;
    var p := db.libros[id].prestatarioId;
    assert p.value in db.prestatarios;
    assert PrestarLibro(after, id, p).after.libros == db.libros;
  }

  /** DELETE /libro/:id succeeds iff the book exists and is available; on
      success only that book goes. */
  lemma DeleteLibroGuards(db: Db, id: int)
    ensures var r := DeleteLibro(db, id);
      && (r.out == Fail(LibroNoExiste) <==> id !in db.libros)
      && (r.out == Fail(PrestadoNoSeBorra) <==> id in db.libros && db.libros[id].prestatarioId.Some?)
      && (r.out.Ok? <==> id in db.libros && db.libros[id].prestatarioId.None?)
      && (r.out.Ok? ==> r.after == db.(libros := db.libros - {id}))
  {
  }

  // ------------------------------------------------------------ the invariant

  lemma PostCategoriaValid(db: Db, nombre: Value)
    requires Valid(db)
    ensures Valid(PostCategoria(db, nombre).after)
  {
    var r := PostCategoria(db, nombre);
    if r.out.Ok? {
      var id := db.nextCategoria;
      assert id !in db.categorias;
      assert r.after.categorias == db.categorias[id := Categoria(ToUpper(nombre.s))];
    }
  }

  lemma DeleteCategoriaValid(db: Db, id: int)
    requires Valid(db)
    ensures Valid(DeleteCategoria(db, id).after)
  {
  }

  lemma PostPersonaValid(db: Db, nombre: Value, apellido: Value, alias: Value, email: Value)
    requires Valid(db)
    ensures Valid(PostPersona(db, nombre, apellido, alias, email).after)
  {
    var r := PostPersona(db, nombre, apellido, alias, email);
    if r.out.Ok? {
      var id := db.nextPrestatario;
      assert id !in db.prestatarios;
    }
  }

  lemma PutPersonaValid(db: Db, id: int, nombre: Value, apellido: Value, alias: Value)
    requires Valid(db)
    ensures Valid(PutPersona(db, id, nombre, apellido, alias).after)
  {
    var r := PutPersona(db, id, nombre, apellido, alias);
    if r.out.Ok? {
      assert forall k :: k in r.after.prestatarios ==> r.after.prestatarios[k].email == db.prestatarios[k].email;
    }
  }

  lemma DeletePersonaValid(db: Db, id: int)
    requires Valid(db)
    ensures Valid(DeletePersona(db, id).after)
  {
  }

  lemma PostLibroValid(db: Db, nombre: Value, descripcion: Value, categoriaId: Option<int>)
    requires Valid(db)
    ensures Valid(PostLibro(db, nombre, descripcion, categoriaId).after)
  {
    var r := PostLibro(db, nombre, descripcion, categoriaId);
    if r.out.Ok? {
      var id := db.nextLibro;
      assert id !in db.libros;
    }
  }

  lemma PutLibroValid(db: Db, id: int, nombre: Value, descripcion: Value, categoria: Value,
                      categoriaId: Option<int>, personaId: Option<int>)
    requires Valid(db)
    ensures Valid(PutLibro(db, id, nombre, descripcion, categoria, categoriaId, personaId).after)
  {
  }

  lemma PutLibroAsWrittenValid(db: Db, id: int, nombre: Value, descripcion: Value, categoria: Value,
                               categoriaId: Option<int>, personaId: Option<int>)
    requires Valid(db)
    ensures Valid(PutLibroAsWritten(db, id, nombre, descripcion, categoria, categoriaId, personaId).after)
  {
  }

  lemma PrestarValid(db: Db, id: int, personaId: Option<int>)
    requires Valid(db)
    ensures Valid(PrestarLibro(db, id, personaId).after)
  {
  }

  lemma DevolverValid(db: Db, id: int)
    requires Valid(db)
    ensures Valid(DevolverLibro(db, id).after)
  {
  }

  lemma DeleteLibroValid(db: Db, id: int)
    requires Valid(db)
    ensures Valid(DeleteLibro(db, id).after)
  {
  }

  // ------------------------------------------------------------ requests in sequence

  /** One HTTP request to one of the routes, with the fields it reads.
      `LibroPut` is PUT /libro/:id as the program runs it; `LibroPutCorregido`
      is the same route with the guard on `categoria_id`. */
  datatype Request =
    | CategoriaPost(nombre: Value)
    | CategoriaGet(id: int)
    | CategoriaDelete(id: int)
    | PersonaPost(nombre: Value, apellido: Value, alias: Value, email: Value)
    | PersonaGet(id: int)
    | PersonaPut(id: int, nombre: Value, apellido: Value, alias: Value)
    | PersonaDelete(id: int)
    | LibroPost(nombre: Value, descripcion: Value, categoriaId: Option<int>)
    | LibroGet(id: int)
    | LibroPut(id: int, nombre: Value, descripcion: Value, categoria: Value, categoriaId: Option<int>, personaId: Option<int>)
    | LibroPutCorregido(id: int, nombre: Value, descripcion: Value, categoria: Value, categoriaId: Option<int>, personaId: Option<int>)
    | LibroPrestar(id: int, personaId: Option<int>)
    | LibroDevolver(id: int)
    | LibroDelete(id: int)

  function Step(db: Db, req: Request): Reply {
    match req
    case CategoriaPost(nombre) => PostCategoria(db, nombre)
    case CategoriaGet(id) => Reply(db, GetCategoria(db, id))
    case CategoriaDelete(id) => DeleteCategoria(db, id)
    case PersonaPost(nombre, apellido, alias, email) => PostPersona(db, nombre, apellido, alias, email)
    case PersonaGet(id) => Reply(db, GetPersona(db, id))
    case PersonaPut(id, nombre, apellido, alias) => PutPersona(db, id, nombre, apellido, alias)
    case PersonaDelete(id) => DeletePersona(db, id)
    case LibroPost(nombre, descripcion, categoriaId) => PostLibro(db, nombre, descripcion, categoriaId)
    case LibroGet(id) => Reply(db, GetLibro(db, id))
    case LibroPut(id, nombre, descripcion, categoria, categoriaId, personaId) =>
      PutLibroAsWritten(db, id, nombre, descripcion, categoria, categoriaId, personaId)
    case LibroPutCorregido(id, nombre, descripcion, categoria, categoriaId, personaId) =>
      PutLibro(db, id, nombre, descripcion, categoria, categoriaId, personaId)
    case LibroPrestar(id, personaId) => PrestarLibro(db, id, personaId)
    case LibroDevolver(id) => DevolverLibro(db, id)
    case LibroDelete(id) => DeleteLibro(db, id)
  }

  /** The database after serving `reqs` one at a time. */
  function Run(db: Db, reqs: seq<Request>): Db
    decreases |reqs|
  {
    if reqs == [] then db else Run(Step(db, reqs[0]).after, reqs[1..])
  }

  /** Every request keeps referential integrity, uniqueness, upper-casing and
      fresh ids. */
  lemma StepValid(db: Db, req: Request)
    requires Valid(db)
    ensures Valid(Step(db, req).after)
  {
    match req
    case CategoriaPost(nombre) => PostCategoriaValid(db, nombre);
    case CategoriaGet(id) =>
    case CategoriaDelete(id) => DeleteCategoriaValid(db, id);
    case PersonaPost(nombre, apellido, alias, email) => PostPersonaValid(db, nombre, apellido, alias, email);
    case PersonaGet(id) =>
    case PersonaPut(id, nombre, apellido, alias) => PutPersonaValid(db, id, nombre, apellido, alias);
    case PersonaDelete(id) => DeletePersonaValid(db, id);
    case LibroPost(nombre, descripcion, categoriaId) => PostLibroValid(db, nombre, descripcion, categoriaId);
    case LibroGet(id) =>
    case LibroPut(id, nombre, descripcion, categoria, categoriaId, personaId) =>
      PutLibroAsWrittenValid(db, id, nombre, descripcion, categoria, categoriaId, personaId);
    case LibroPutCorregido(id, nombre, descripcion, categoria, categoriaId, personaId) =>
      PutLibroValid(db, id, nombre, descripcion, categoria, categoriaId, personaId);
    case LibroPrestar(id, personaId) => PrestarValid(db, id, personaId);
    case LibroDevolver(id) => DevolverValid(db, id);
    case LibroDelete(id) => DeleteLibroValid(db, id);
  }

  /** Any sequence of requests served from a valid database, the empty one
      among them, leaves it valid. */
  lemma {:induction false} RunValid(db: Db, reqs: seq<Request>)
    requires Valid(db)
    ensures Valid(Run(db, reqs))
    decreases |reqs|
  {
    if reqs != [] {
      StepValid(db, reqs[0]);
      RunValid(Step(db, reqs[0]).after, reqs[1..]);
    }
  }

  // ------------------------------------------------------------ the loan state machine

  /** Of all requests, only lending book `id` takes it from available to on
      loan, only returning it takes it back, and only deleting it removes it,
      which happens only while it is available. */
  lemma LoanTransitions(db: Db, req: Request, id: int)
    requires Valid(db)
    requires id in db.libros
    ensures var after := Step(db, req).after;
      && (db.libros[id].prestatarioId.None? && id in after.libros && after.libros[id].prestatarioId.Some? ==>
            req.LibroPrestar? && req.id == id)
      && (db.libros[id].prestatarioId.Some? && id in after.libros && after.libros[id].prestatarioId.None? ==>
            req.LibroDevolver? && req.id == id)
      && (id !in after.libros ==> req.LibroDelete? && req.id == id && db.libros[id].prestatarioId.None?)
  {
    match req
    case LibroPost(nombre, descripcion, categoriaId) =>
      assert id != db.nextLibro;
    case _ =>
  }
}
