/** The three tables of the `biblioteca` database, held in memory, and the
    invariants the route handlers keep across them. */
module Tablas {
  import opened Js
  import opened Formato

  datatype Categoria = Categoria(nombre: string)

  datatype Persona = Persona(nombre: string, apellido: string, alias: string, email: string)

  /** `prestatarioId` is None while the book is available and names the
      borrower while it is on loan. */
  datatype Libro = Libro(nombre: string, descripcion: string, categoriaId: int, prestatarioId: Option<int>)

  /** The tables keyed by id, and the next value of each auto-increment counter. */
  datatype Db = Db(
    categorias: map<int, Categoria>,
    prestatarios: map<int, Persona>,
    libros: map<int, Libro>,
    nextCategoria: int,
    nextPrestatario: int,
    nextLibro: int)

  const Vacia: Db := Db(map[], map[], map[], 1, 1, 1)

  // Rows as `SELECT *` returns them, under the storage column names.

  function CategoriaFila(id: int, c: Categoria): Record {
    map["categorias_id" := Num(id), "categorias_nombre" := Str(c.nombre)]
  }

  function PrestatarioFila(id: int, p: Persona): Record {
    map["prestatarios_id" := Num(id),
        "prestatarios_nombre" := Str(p.nombre),
        "prestatarios_apellido" := Str(p.apellido),
        "prestatarios_alias" := Str(p.alias),
        "prestatarios_email" := Str(p.email)]
  }

  function LibroFila(id: int, l: Libro): Record {
    map["libros_id" := Num(id),
        "libros_nombre" := Str(l.nombre),
        "libros_descripcion" := Str(l.descripcion),
        "libros_categoria_id" := Num(l.categoriaId),
        "libros_prestatario_id" := if l.prestatarioId.Some? then Num(l.prestatarioId.value) else Null]
  }

  // The same rows as the handlers send them, under the response field names.

  function CategoriaRespuesta(id: int, c: Categoria): Record {
    map["id" := Num(id), "nombre" := Str(c.nombre)]
  }

  function PrestatarioRespuesta(id: int, p: Persona): Record {
    map["id" := Num(id), "nombre" := Str(p.nombre), "apellido" := Str(p.apellido),
        "alias" := Str(p.alias), "email" := Str(p.email)]
  }

  function LibroRespuesta(id: int, l: Libro): Record {
    map["id" := Num(id), "nombre" := Str(l.nombre), "descripcion" := Str(l.descripcion),
        "categoria_id" := Num(l.categoriaId),
        "persona_id" := if l.prestatarioId.Some? then Num(l.prestatarioId.value) else Null]
  }

  /** Each response record is the renaming of its stored row. */
  lemma RespuestaCategoriaIsRenaming(id: int, c: Categoria)
    ensures IsRenaming(CategoriaFila(id, c), CategoriaRespuesta(id, c), Renombres(CATEGORIAS))
  {
    SalidaCategoriaIsRenaming(CategoriaFila(id, c));
    assert SalidaCategoria(CategoriaFila(id, c)) == CategoriaRespuesta(id, c);
  }

  lemma RespuestaPrestatarioIsRenaming(id: int, p: Persona)
    ensures IsRenaming(PrestatarioFila(id, p), PrestatarioRespuesta(id, p), Renombres(PRESTATARIOS))
  {
    SalidaPrestatarioIsRenaming(PrestatarioFila(id, p));
    assert SalidaPrestatario(PrestatarioFila(id, p)) == PrestatarioRespuesta(id, p);
  }

  lemma RespuestaLibroIsRenaming(id: int, l: Libro)
    ensures IsRenaming(LibroFila(id, l), LibroRespuesta(id, l), Renombres(LIBROS))
  {
    SalidaLibroIsRenaming(LibroFila(id, l));
    assert SalidaLibro(LibroFila(id, l)) == LibroRespuesta(id, l);
  }

  /** Response records of different ids differ. */
  lemma CategoriaRespuestaInjective(a: int, b: int, c: Categoria, d: Categoria)
    requires a != b
    ensures CategoriaRespuesta(a, c) != CategoriaRespuesta(b, d)
  {
    assert CategoriaRespuesta(a, c)["id"] != CategoriaRespuesta(b, d)["id"];
  }

  lemma PrestatarioRespuestaInjective(a: int, b: int, p: Persona, q: Persona)
    requires a != b
    ensures PrestatarioRespuesta(a, p) != PrestatarioRespuesta(b, q)
  {
    assert PrestatarioRespuesta(a, p)["id"] != PrestatarioRespuesta(b, q)["id"];
  }

  lemma LibroRespuestaInjective(a: int, b: int, l: Libro, m: Libro)
    requires a != b
    ensures LibroRespuesta(a, l) != LibroRespuesta(b, m)
  {
    assert LibroRespuesta(a, l)["id"] != LibroRespuesta(b, m)["id"];
  }

  /** Renaming a stored row gives the response record. */
  lemma AdaptaCategoria(id: int, c: Categoria)
    ensures AdaptaNombres([CategoriaFila(id, c)], CATEGORIAS) == [CategoriaRespuesta(id, c)]
  {
    var r := AdaptaNombres([CategoriaFila(id, c)], CATEGORIAS);
    AdaptaNombresRenames([CategoriaFila(id, c)], CATEGORIAS);
    assert IsRenaming(CategoriaFila(id, c), r[0], Renombres(CATEGORIAS));
    assert r[0] == CategoriaRespuesta(id, c);
  }

  lemma AdaptaPrestatario(id: int, p: Persona)
    ensures AdaptaNombres([PrestatarioFila(id, p)], PRESTATARIOS) == [PrestatarioRespuesta(id, p)]
  {
    var r := AdaptaNombres([PrestatarioFila(id, p)], PRESTATARIOS);
    AdaptaNombresRenames([PrestatarioFila(id, p)], PRESTATARIOS);
    assert IsRenaming(PrestatarioFila(id, p), r[0], Renombres(PRESTATARIOS));
    assert r[0] == PrestatarioRespuesta(id, p);
  }

  lemma AdaptaLibro(id: int, l: Libro)
    ensures AdaptaNombres([LibroFila(id, l)], LIBROS) == [LibroRespuesta(id, l)]
  {
    var r := AdaptaNombres([LibroFila(id, l)], LIBROS);
    AdaptaNombresRenames([LibroFila(id, l)], LIBROS);
    assert IsRenaming(LibroFila(id, l), r[0], Renombres(LIBROS));
    assert r[0] == LibroRespuesta(id, l);
  }

  // The lookups the handlers make with `SELECT * ... WHERE`.

  predicate CategoriaConNombre(db: Db, nombre: string) {
    exists k :: k in db.categorias && db.categorias[k].nombre == nombre
  }

  predicate PrestatarioConEmail(db: Db, email: string) {
    exists k :: k in db.prestatarios && db.prestatarios[k].email == email
  }

  predicate LibroConNombre(db: Db, nombre: string) {
    exists k :: k in db.libros && db.libros[k].nombre == nombre
  }

  /** Some book belongs to category `id`. */
  predicate LibrosDeCategoria(db: Db, id: int) {
    exists k :: k in db.libros && db.libros[k].categoriaId == id
  }

  /** Some book is on loan to person `id`. */
  predicate LibrosPrestadosA(db: Db, id: int) {
    exists k :: k in db.libros && db.libros[k].prestatarioId == Some(id)
  }

  // The invariant.

  /** Every id was handed out by the table's counter, which starts at 1. */
  ghost predicate IdsGenerados<T>(t: map<int, T>, next: int) {
    next >= 1 && forall k :: k in t ==> 1 <= k < next
  }

  /** Every book's category exists, and so does every borrower of a book on loan. */
  ghost predicate Referencias(db: Db) {
    && (forall k :: k in db.libros ==> db.libros[k].categoriaId in db.categorias)
    && (forall k :: k in db.libros && db.libros[k].prestatarioId.Some? ==>
          db.libros[k].prestatarioId.value in db.prestatarios)
  }

  /** Category names, borrower emails and book names identify their rows. */
  ghost predicate Unicos(db: Db) {
    && (forall a, b ::
          a in db.categorias && b in db.categorias && db.categorias[a].nombre == db.categorias[b].nombre ==> a == b)
    && (forall a, b ::
          a in db.prestatarios && b in db.prestatarios && db.prestatarios[a].email == db.prestatarios[b].email ==> a == b)
    && (forall a, b ::
          a in db.libros && b in db.libros && db.libros[a].nombre == db.libros[b].nombre ==> a == b)
  }

  /** Every stored string is upper-case. */
  ghost predicate EnMayusculas(db: Db) {
    && (forall k :: k in db.categorias ==> IsUpper(db.categorias[k].nombre))
    && (forall k :: k in db.prestatarios ==>
          var p := db.prestatarios[k];
          IsUpper(p.nombre) && IsUpper(p.apellido) && IsUpper(p.alias) && IsUpper(p.email))
    && (forall k :: k in db.libros ==> IsUpper(db.libros[k].nombre) && IsUpper(db.libros[k].descripcion))
  }

  ghost predicate Valid(db: Db) {
    && IdsGenerados(db.categorias, db.nextCategoria)
    && IdsGenerados(db.prestatarios, db.nextPrestatario)
    && IdsGenerados(db.libros, db.nextLibro)
    && Referencias(db)
    && Unicos(db)
    && EnMayusculas(db)
  }

  lemma VaciaValid()
    ensures Valid(Vacia)
  {
  }

  /** Under the invariant a missing category has no books and a missing
      person holds no book, so the two delete guards never disagree on
      which one fires. */
  lemma SinReferenciasColgantes(db: Db, id: int)
    requires Valid(db)
    ensures id !in db.categorias ==> !LibrosDeCategoria(db, id)
    ensures id !in db.prestatarios ==> !LibrosPrestadosA(db, id)
  {
  }
}
