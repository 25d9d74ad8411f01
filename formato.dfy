/** The renaming of storage column names into the field names of the HTTP
    responses (`adaptaNombresDeKeysAFormatoSalida`). */
module Formato {
  import opened Js

  /** A row as the database returns it, or a record as a handler sends it:
      field name to value. */
  type Record = map<string, Value>

  /** The three table kinds the handlers pass. */
  const CATEGORIAS: string := "CATEGORIAS"
  const LIBROS: string := "LIBROS"
  const PRESTATARIOS: string := "PRESTATARIOS"

  /** `item.key`: undefined when the row has no such column. */
  function Field(item: Record, key: string): Value {
    if key in item then item[key] else Undefined
  }

  /** The reference renaming of each table kind, as pairs
      (response field, storage column); empty for any other kind. */
  function Renombres(tipo: string): seq<(string, string)> {
    if tipo == CATEGORIAS then
      [("id", "categorias_id"), ("nombre", "categorias_nombre")]
    else if tipo == LIBROS then
      [("id", "libros_id"), ("nombre", "libros_nombre"), ("descripcion", "libros_descripcion"),
       ("categoria_id", "libros_categoria_id"), ("persona_id", "libros_prestatario_id")]
    else if tipo == PRESTATARIOS then
      [("id", "prestatarios_id"), ("nombre", "prestatarios_nombre"), ("apellido", "prestatarios_apellido"),
       ("alias", "prestatarios_alias"), ("email", "prestatarios_email")]
    else
      []
  }

  /** `salida` has exactly the response fields of `pares`, each holding the
      value of its storage column in `item`. */
  ghost predicate IsRenaming(item: Record, salida: Record, pares: seq<(string, string)>) {
    && salida.Keys == Campos(pares)
    && forall i :: 0 <= i < |pares| ==> pares[i].0 in salida && salida[pares[i].0] == Field(item, pares[i].1)
  }

  /** The response fields named by `pares`. */
  function Campos(pares: seq<(string, string)>): set<string> {
    set i | 0 <= i < |pares| :: pares[i].0
  }

  function SalidaCategoria(item: Record): Record {
    map["id" := Field(item, "categorias_id"), "nombre" := Field(item, "categorias_nombre")]
  }

  function SalidaLibro(item: Record): Record {
    map["id" := Field(item, "libros_id"),
        "nombre" := Field(item, "libros_nombre"),
        "descripcion" := Field(item, "libros_descripcion"),
        "categoria_id" := Field(item, "libros_categoria_id"),
        "persona_id" := Field(item, "libros_prestatario_id")]
  }

  function SalidaPrestatario(item: Record): Record {
    map["id" := Field(item, "prestatarios_id"),
        "nombre" := Field(item, "prestatarios_nombre"),
        "apellido" := Field(item, "prestatarios_apellido"),
        "alias" := Field(item, "prestatarios_alias"),
        "email" := Field(item, "prestatarios_email")]
  }

  /** `datos.map(f)`. */
  function MapRecords(datos: seq<Record>, f: Record -> Record): (r: seq<Record>)
    ensures |r| == |datos|
    ensures forall i :: 0 <= i < |datos| ==> r[i] == f(datos[i])
  {
    if datos == [] then [] else [f(datos[0])] + MapRecords(datos[1..], f)
  }

  /** The per-kind record builders agree with the reference renaming. */
  lemma SalidaCategoriaIsRenaming(item: Record)
    ensures IsRenaming(item, SalidaCategoria(item), Renombres(CATEGORIAS))
  {
    var pares := Renombres(CATEGORIAS);
    assert pares[0].0 in Campos(pares) && pares[1].0 in Campos(pares);
    assert Campos(pares) == {"id", "nombre"};
  }

  lemma SalidaLibroIsRenaming(item: Record)
    ensures IsRenaming(item, SalidaLibro(item), Renombres(LIBROS))
  {
    assert LIBROS != CATEGORIAS;
    var pares := Renombres(LIBROS);
    assert pares[0].0 in Campos(pares) && pares[1].0 in Campos(pares) && pares[2].0 in Campos(pares);
    assert pares[3].0 in Campos(pares) && pares[4].0 in Campos(pares);
    assert Campos(pares) == {"id", "nombre", "descripcion", "categoria_id", "persona_id"};
  }

  lemma SalidaPrestatarioIsRenaming(item: Record)
    ensures IsRenaming(item, SalidaPrestatario(item), Renombres(PRESTATARIOS))
  {
    assert PRESTATARIOS != CATEGORIAS && PRESTATARIOS != LIBROS;
    var pares := Renombres(PRESTATARIOS);
    assert pares[0].0 in Campos(pares) && pares[1].0 in Campos(pares) && pares[2].0 in Campos(pares);
    assert pares[3].0 in Campos(pares) && pares[4].0 in Campos(pares);
    assert Campos(pares) == {"id", "nombre", "apellido", "alias", "email"};
  }

  /** `adaptaNombresDeKeysAFormatoSalida(datos, tipo)`: an unknown kind gives [],
      a known one a sequence of the same length as `datos`; what each element
      holds is `AdaptaNombresRenames`. */
  function AdaptaNombres(datos: seq<Record>, tipo: string): (r: seq<Record>)
    ensures tipo !in {CATEGORIAS, LIBROS, PRESTATARIOS} ==> r == []
    ensures tipo in {CATEGORIAS, LIBROS, PRESTATARIOS} ==> |r| == |datos|
  {
    if tipo == CATEGORIAS then MapRecords(datos, SalidaCategoria)
    else if tipo == LIBROS then MapRecords(datos, SalidaLibro)
    else if tipo == PRESTATARIOS then MapRecords(datos, SalidaPrestatario)
    else []
  }

  /** For a known kind, element i of the result is the renaming of row i, in
      the same order. */
  lemma AdaptaNombresRenames(datos: seq<Record>, tipo: string)
    requires tipo in {CATEGORIAS, LIBROS, PRESTATARIOS}
    ensures forall i :: 0 <= i < |datos| ==> IsRenaming(datos[i], AdaptaNombres(datos, tipo)[i], Renombres(tipo))
  {
    forall i | 0 <= i < |datos|
      ensures IsRenaming(datos[i], AdaptaNombres(datos, tipo)[i], Renombres(tipo))
    {
      if tipo == CATEGORIAS {
        SalidaCategoriaIsRenaming(datos[i]);
      } else if tipo == LIBROS {
        SalidaLibroIsRenaming(datos[i]);
      } else {
        SalidaPrestatarioIsRenaming(datos[i]);
      }
    }
  }

  /** A renaming is determined by its row: the response is a pure function of the input. */
  lemma RenamingUnique(item: Record, a: Record, b: Record, pares: seq<(string, string)>)
    requires IsRenaming(item, a, pares) && IsRenaming(item, b, pares)
    ensures a == b
  {
  }
}
