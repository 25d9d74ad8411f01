/** The service as an object holding the three tables, one method per route.
    Each state-changing method runs the handler's checks one query at a time
    and then changes its tables in place; its contract ties the new tables
    and the outcome to the route function of the same name in `Rutas`, and
    keeps the invariant of `Tablas`. A GET-by-id method's outcome is that of
    its `Rutas` function; the three list methods scan a table and return its
    rows renamed, each row once. */
module Servidor {
  import opened Js
  import opened Formato
  import opened Tablas
  import opened Rutas
  import Propiedades

  /** `SELECT * FROM t` over a table whose ids the counter `next` handed
      out: every row once. The query has no ORDER BY, so any order is
      possible; the scan picks increasing id order. `ids` lists the ids in
      that order. */
  method Scan<T>(t: map<int, T>, next: int, fila: (int, T) -> Record) returns (respuesta: seq<Record>, ghost ids: seq<int>)
    requires forall k :: k in t ==> 1 <= k < next
    ensures |respuesta| == |ids|
    ensures forall i :: 0 <= i < |ids| ==> ids[i] in t && respuesta[i] == fila(ids[i], t[ids[i]])
    ensures forall i, j :: 0 <= i < j < |ids| ==> ids[i] < ids[j]
    ensures forall k :: k in t ==> k in ids
  {
    respuesta, ids := [], [];
    var id := 1;
    while id < next
      invariant |respuesta| == |ids|
      invariant forall i :: 0 <= i < |ids| ==> ids[i] in t && ids[i] < id && respuesta[i] == fila(ids[i], t[ids[i]])
      invariant forall i, j :: 0 <= i < j < |ids| ==> ids[i] < ids[j]
      invariant forall k :: k in t && k < id ==> k in ids
    {
      if id in t {
        respuesta, ids := respuesta + [fila(id, t[id])], ids + [id];
      }
      id := id + 1;
    }
  }

  class Biblioteca {
    var categorias: map<int, Categoria>
    var prestatarios: map<int, Persona>
    var libros: map<int, Libro>
    var nextCategoria: int
    var nextPrestatario: int
    var nextLibro: int

    /** The tables as a value. */
    function Estado(): Db
      reads this
    {
      Db(categorias, prestatarios, libros, nextCategoria, nextPrestatario, nextLibro)
    }

    ghost predicate Valid()
      reads this
    {
      Tablas.Valid(Estado())
    }

    /** An empty database. */
    constructor ()
      ensures Valid() && Estado() == Vacia
    {
      categorias, prestatarios, libros := map[], map[], map[];
      nextCategoria, nextPrestatario, nextLibro := 1, 1, 1;
    }

    // ------------------------------------------------------------ /categoria

    method PostCategoria(nombre: Value) returns (out: Outcome)
      requires Valid()
      modifies this
      ensures Valid()
      ensures Reply(Estado(), out) == Rutas.PostCategoria(old(Estado()), nombre)
    {
      if !Truthy(nombre) {
        return Fail(FaltanDatos);
      }
      if !nombre.Str? {
        return Fail(NoEsTexto);
      }
      var n := ToUpper(nombre.s);
      var existe := exists k :: k in categorias && categorias[k].nombre == n;
      if existe {
        return Fail(NombreDuplicado);
      }
      var insertId := nextCategoria;
      categorias, nextCategoria := categorias[insertId := Categoria(n)], insertId + 1;
      out := Ok(Objeto(map["id" := Num(insertId), "nombre" := Str(n)]));
      Propiedades.PostCategoriaValid(old(Estado()), nombre);
    }

    /** GET /categoria */
    method GetCategorias() returns (filas: seq<Record>)
      requires Valid()
      ensures forall i :: 0 <= i < |filas| ==> exists k :: k in categorias && filas[i] == CategoriaRespuesta(k, categorias[k])
      ensures forall k :: k in categorias ==> CategoriaRespuesta(k, categorias[k]) in filas
      ensures forall i, j :: 0 <= i < j < |filas| ==> filas[i] != filas[j]
    {
      var respuesta, ids := Scan(categorias, nextCategoria, CategoriaFila);
      filas := AdaptaNombres(respuesta, CATEGORIAS);
      AdaptaNombresRenames(respuesta, CATEGORIAS);
      forall i | 0 <= i < |ids|
        ensures filas[i] == CategoriaRespuesta(ids[i], categorias[ids[i]])
      {
        RespuestaCategoriaIsRenaming(ids[i], categorias[ids[i]]);
        RenamingUnique(respuesta[i], filas[i], CategoriaRespuesta(ids[i], categorias[ids[i]]), Renombres(CATEGORIAS));
      }
      forall i | 0 <= i < |filas|
        ensures exists k :: k in categorias && filas[i] == CategoriaRespuesta(k, categorias[k])
      {
        assert ids[i] in categorias && filas[i] == CategoriaRespuesta(ids[i], categorias[ids[i]]);
      }
      forall k | k in categorias
        ensures CategoriaRespuesta(k, categorias[k]) in filas
      {
        var i :| 0 <= i < |ids| && ids[i] == k;
        assert filas[i] == CategoriaRespuesta(k, categorias[k]);
      }
      forall i, j | 0 <= i < j < |filas|
        ensures filas[i] != filas[j]
      {
        CategoriaRespuestaInjective(ids[i], ids[j], categorias[ids[i]], categorias[ids[j]]);
      }
    }

    method GetCategoria(id: int) returns (out: Outcome)
      ensures out == Rutas.GetCategoria(Estado(), id)
    {
      if id !in categorias {
        return Fail(CategoriaNoExiste);
      }
      out := Ok(Filas(AdaptaNombres([CategoriaFila(id, categorias[id])], CATEGORIAS)));
    }

    method DeleteCategoria(id: int) returns (out: Outcome)
      requires Valid()
      modifies this
      ensures Valid()
      ensures Reply(Estado(), out) == Rutas.DeleteCategoria(old(Estado()), id)
    {
      var existe := exists k :: k in libros && libros[k].categoriaId == id;
      if existe {
        return Fail(CategoriaConLibros);
      }
      if id !in categorias {
        return Fail(CategoriaNoExiste);
      }
      categorias := categorias - {id};
      out := Ok(Borradas(1));
      Propiedades.DeleteCategoriaValid(old(Estado()), id);
    }

    // ------------------------------------------------------------ /persona

    method PostPersona(nombre: Value, apellido: Value, alias: Value, email: Value) returns (out: Outcome)
      requires Valid()
      modifies this
      ensures Valid()
      ensures Reply(Estado(), out) == Rutas.PostPersona(old(Estado()), nombre, apellido, alias, email)
    {
      if !Truthy(nombre) || !Truthy(apellido) || !Truthy(email) {
        return Fail(FaltanDatos);
      }
      if !email.Str? {
        return Fail(NoEsTexto);
      }
      var e := ToUpper(email.s);
      var existe := PrestatarioConEmail(Estado(), e);
      if existe {
        return Fail(EmailDuplicado);
      }
      if !nombre.Str? || !apellido.Str? || !alias.Str? {
        return Fail(NoEsTexto);
      }
      var insertId := nextPrestatario;
      var p := Persona(ToUpper(nombre.s), ToUpper(apellido.s), ToUpper(alias.s), e);
      prestatarios, nextPrestatario := prestatarios[insertId := p], insertId + 1;
      out := Ok(Filas(AdaptaNombres([PrestatarioFila(insertId, p)], PRESTATARIOS)));
      assert Reply(Estado(), out) == Rutas.PostPersona(old(Estado()), nombre, apellido, alias, email);
      Propiedades.PostPersonaValid(old(Estado()), nombre, apellido, alias, email);
    }

    /** GET /persona */
    method GetPersonas() returns (filas: seq<Record>)
      requires Valid()
      ensures forall i :: 0 <= i < |filas| ==> exists k :: k in prestatarios && filas[i] == PrestatarioRespuesta(k, prestatarios[k])
      ensures forall k :: k in prestatarios ==> PrestatarioRespuesta(k, prestatarios[k]) in filas
      ensures forall i, j :: 0 <= i < j < |filas| ==> filas[i] != filas[j]
    {
      var respuesta, ids := Scan(prestatarios, nextPrestatario, PrestatarioFila);
      filas := AdaptaNombres(respuesta, PRESTATARIOS);
      AdaptaNombresRenames(respuesta, PRESTATARIOS);
      forall i | 0 <= i < |ids|
        ensures filas[i] == PrestatarioRespuesta(ids[i], prestatarios[ids[i]])
      {
        RespuestaPrestatarioIsRenaming(ids[i], prestatarios[ids[i]]);
        RenamingUnique(respuesta[i], filas[i], PrestatarioRespuesta(ids[i], prestatarios[ids[i]]), Renombres(PRESTATARIOS));
      }
      forall i | 0 <= i < |filas|
        ensures exists k :: k in prestatarios && filas[i] == PrestatarioRespuesta(k, prestatarios[k])
      {
        assert ids[i] in prestatarios && filas[i] == PrestatarioRespuesta(ids[i], prestatarios[ids[i]]);
      }
      forall k | k in prestatarios
        ensures PrestatarioRespuesta(k, prestatarios[k]) in filas
      {
        var i :| 0 <= i < |ids| && ids[i] == k;
        assert filas[i] == PrestatarioRespuesta(k, prestatarios[k]);
      }
      forall i, j | 0 <= i < j < |filas|
        ensures filas[i] != filas[j]
      {
        PrestatarioRespuestaInjective(ids[i], ids[j], prestatarios[ids[i]], prestatarios[ids[j]]);
      }
    }

    method GetPersona(id: int) returns (out: Outcome)
      ensures out == Rutas.GetPersona(Estado(), id)
    {
      if id !in prestatarios {
        return Fail(PersonaNoExiste);
      }
      out := Ok(Filas(AdaptaNombres([PrestatarioFila(id, prestatarios[id])], PRESTATARIOS)));
    }

    method PutPersona(id: int, nombre: Value, apellido: Value, alias: Value) returns (out: Outcome)
      requires Valid()
      modifies this
      ensures Valid()
      ensures Reply(Estado(), out) == Rutas.PutPersona(old(Estado()), id, nombre, apellido, alias)
    {
      if !Truthy(nombre) || !Truthy(apellido) {
        return Fail(FaltanDatos);
      }
      if id !in prestatarios {
        return Fail(PersonaNoExiste);
      }
      if !nombre.Str? || !apellido.Str? || !alias.Str? {
        return Fail(NoEsTexto);
      }
      var p := prestatarios[id].(nombre := ToUpper(nombre.s), apellido := ToUpper(apellido.s), alias := ToUpper(alias.s));
      prestatarios := prestatarios[id := p];
      out := Ok(Filas(AdaptaNombres([PrestatarioFila(id, prestatarios[id])], PRESTATARIOS)));
      Propiedades.PutPersonaValid(old(Estado()), id, nombre, apellido, alias);
    }

    method DeletePersona(id: int) returns (out: Outcome)
      requires Valid()
      modifies this
      ensures Valid()
      ensures Reply(Estado(), out) == Rutas.DeletePersona(old(Estado()), id)
    {
      if id !in prestatarios {
        return Fail(PersonaNoExiste);
      }
      var existe := exists k :: k in libros && libros[k].prestatarioId == Some(id);
      if existe {
        return Fail(PersonaConLibros);
      }
      prestatarios := prestatarios - {id};
      out := Ok(Mensaje);
      Propiedades.DeletePersonaValid(old(Estado()), id);
    }

    // ------------------------------------------------------------ /libro

    method PostLibro(nombre: Value, descripcion: Value, categoriaId: Option<int>) returns (out: Outcome)
      requires Valid()
      modifies this
      ensures Valid()
      ensures Reply(Estado(), out) == Rutas.PostLibro(old(Estado()), nombre, descripcion, categoriaId)
    {
      if !Truthy(nombre) || !TruthyId(categoriaId) {
        return Fail(FaltanDatos);
      }
      if !nombre.Str? {
        return Fail(NoEsTexto);
      }
      var n := ToUpper(nombre.s);
      var existe := exists k :: k in libros && libros[k].nombre == n;
      if existe {
        return Fail(NombreDuplicado);
      }
      if categoriaId.value !in categorias {
        return Fail(CategoriaNoExiste);
      }
      if !descripcion.Str? {
        return Fail(NoEsTexto);
      }
      var insertId := nextLibro;
      var l := Libro(n, ToUpper(descripcion.s), categoriaId.value, None);
      libros, nextLibro := libros[insertId := l], insertId + 1;
      out := Ok(Filas(AdaptaNombres([LibroFila(insertId, l)], LIBROS)));
      assert Reply(Estado(), out) == Rutas.PostLibro(old(Estado()), nombre, descripcion, categoriaId);
      Propiedades.PostLibroValid(old(Estado()), nombre, descripcion, categoriaId);
    }

    /** GET /libro */
    method GetLibros() returns (filas: seq<Record>)
      requires Valid()
      ensures forall i :: 0 <= i < |filas| ==> exists k :: k in libros && filas[i] == LibroRespuesta(k, libros[k])
      ensures forall k :: k in libros ==> LibroRespuesta(k, libros[k]) in filas
      ensures forall i, j :: 0 <= i < j < |filas| ==> filas[i] != filas[j]
    {
      var respuesta, ids := Scan(libros, nextLibro, LibroFila);
      filas := AdaptaNombres(respuesta, LIBROS);
      AdaptaNombresRenames(respuesta, LIBROS);
      forall i | 0 <= i < |ids|
        ensures filas[i] == LibroRespuesta(ids[i], libros[ids[i]])
      {
        RespuestaLibroIsRenaming(ids[i], libros[ids[i]]);
        RenamingUnique(respuesta[i], filas[i], LibroRespuesta(ids[i], libros[ids[i]]), Renombres(LIBROS));
      }
      forall i | 0 <= i < |filas|
        ensures exists k :: k in libros && filas[i] == LibroRespuesta(k, libros[k])
      {
        assert ids[i] in libros && filas[i] == LibroRespuesta(ids[i], libros[ids[i]]);
      }
      forall k | k in libros
        ensures LibroRespuesta(k, libros[k]) in filas
      {
        var i :| 0 <= i < |ids| && ids[i] == k;
        assert filas[i] == LibroRespuesta(k, libros[k]);
      }
      forall i, j | 0 <= i < j < |filas|
        ensures filas[i] != filas[j]
      {
        LibroRespuestaInjective(ids[i], ids[j], libros[ids[i]], libros[ids[j]]);
      }
    }

    method GetLibro(id: int) returns (out: Outcome)
      ensures out == Rutas.GetLibro(Estado(), id)
    {
      if id !in libros {
        return Fail(LibroNoExiste);
      }
      out := Ok(Filas(AdaptaNombres([LibroFila(id, libros[id])], LIBROS)));
    }

    /** PUT /libro/:id, with the guard testing `categoria_id`. */
    method PutLibro(id: int, nombre: Value, descripcion: Value, categoria: Value,
                    categoriaId: Option<int>, personaId: Option<int>) returns (out: Outcome)
      requires Valid()
      modifies this
      ensures Valid()
      ensures Reply(Estado(), out) == Rutas.PutLibro(old(Estado()), id, nombre, descripcion, categoria, categoriaId, personaId)
    {
      if id !in libros {
        return Fail(LibroNoExiste);
      }
      if Truthy(nombre) || TruthyId(categoriaId) || TruthyId(personaId) {
        return Fail(SoloDescripcion);
      }
      if !descripcion.Str? {
        return Fail(NoEsTexto);
      }
      var l := libros[id].(descripcion := ToUpper(descripcion.s));
      libros := libros[id := l];
      out := Ok(Filas(AdaptaNombres([LibroFila(id, l)], LIBROS)));
      Propiedades.PutLibroValid(old(Estado()), id, nombre, descripcion, categoria, categoriaId, personaId);
    }

    method PrestarLibro(id: int, personaId: Option<int>) returns (out: Outcome)
      requires Valid()
      modifies this
      ensures Valid()
      ensures Reply(Estado(), out) == Rutas.PrestarLibro(old(Estado()), id, personaId)
    {
      if !TruthyId(personaId) {
        return Fail(FaltanDatos);
      }
      if id !in libros {
        return Fail(LibroNoExiste);
      }
      var respuesta := libros[id];
      if respuesta.prestatarioId != None {
        return Fail(YaPrestado);
      }
      if personaId.value !in prestatarios {
        return Fail(PersonaNoExiste);
      }
      libros := libros[id := respuesta.(prestatarioId := personaId)];
      out := Ok(Mensaje);
      Propiedades.PrestarValid(old(Estado()), id, personaId);
    }

    method DevolverLibro(id: int) returns (out: Outcome)
      requires Valid()
      modifies this
      ensures Valid()
      ensures Reply(Estado(), out) == Rutas.DevolverLibro(old(Estado()), id)
    {
      if id !in libros {
        return Fail(LibroNoExiste);
      }
      var respuesta := libros[id];
      if respuesta.prestatarioId == None {
        return Fail(NoPrestado);
      }
      libros := libros[id := respuesta.(prestatarioId := None)];
      out := Ok(Mensaje);
      Propiedades.DevolverValid(old(Estado()), id);
    }

    method DeleteLibro(id: int) returns (out: Outcome)
      requires Valid()
      modifies this
      ensures Valid()
      ensures Reply(Estado(), out) == Rutas.DeleteLibro(old(Estado()), id)
    {
      if id !in libros {
        return Fail(LibroNoExiste);
      }
      if libros[id].prestatarioId != None {
        return Fail(PrestadoNoSeBorra);
      }
      libros := libros - {id};
      out := Ok(Mensaje);
      Propiedades.DeleteLibroValid(old(Estado()), id);
    }
  }

  /** A client of the class: lending a book twice fails until it is returned,
      and returning it restores the tables. */
  method LendTwice(b: Biblioteca, id: int, p: int, q: int) returns (first: Outcome, second: Outcome, back: Outcome)
    requires b.Valid() && p != 0 && q != 0
    modifies b
    ensures b.Valid()
    ensures first.Ok? ==> second == Fail(YaPrestado) && back.Ok? && b.Estado() == old(b.Estado())
  {
    ghost var antes := b.Estado();
    first := b.PrestarLibro(id, Some(p));
    Propiedades.PrestarValid(antes, id, Some(p));
    ghost var prestado := b.Estado();
    second := b.PrestarLibro(id, Some(q));
    Propiedades.PrestarValid(prestado, id, Some(q));
    ghost var intento := b.Estado();
    back := b.DevolverLibro(id);
    Propiedades.DevolverValid(intento, id);
    if first.Ok? {
      Propiedades.PrestarDevolverRestores(antes, id, Some(p));
    }
  }
}
