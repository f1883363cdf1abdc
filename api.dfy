/**
 * The request handlers of main.py over the shared database, each one atomic: every
 * lookup it makes sees the state before the call, and it either commits all its
 * changes or raises before changing anything.
 */
module Api {
  import opened Wrappers
  import opened Errores
  import opened Tabla
  import opened Almacen

  /** The response of a successful `completar_mision`. */
  datatype Completada = Completada(mensaje: string, experienciaGanada: int, experienciaTotal: int)

  /**
   * `GET /misiones?personaje_id=`: the quests, each with its id, of the character's
   * pending rows in non-decreasing `orden`, skipping rows whose reference names no
   * stored quest (the inner join).
   * A missing character raises 404 inside the `try`, which the `except Exception`
   * turns into a 500.
   */
  function ObtenerMisionesPorPersonaje(db: Database, personajeId: int): (r: Result<seq<(int, Mision)>, Error>)
    reads db
    ensures r.Err? <==> personajeId !in db.personajes
    ensures r.Err? ==> r.error == ErrorInterno(PersonajeNoEncontrado) && r.error.Status() == 500
    ensures r.Ok? ==>
      var s := ActiveRows(db.relaciones, db.misiones.Keys, personajeId);
      && |r.value| == |s|
      && forall k :: 0 <= k < |s| ==> Joins(s[k], db.misiones.Keys) && r.value[k] == (s[k].misionId.value, db.misiones[s[k].misionId.value])
  {
    if personajeId !in db.personajes then Err(ErrorInterno(PersonajeNoEncontrado))
    else
      var misiones := db.misiones;
      var s := ActiveRows(db.relaciones, misiones.Keys, personajeId);
      assert forall k :: 0 <= k < |s| ==> s[k] in s;
      Ok(seq(|s|, k requires 0 <= k < |s| => (s[k].misionId.value, misiones[s[k].misionId.value])))
  }

  /** `GET /misiones/{id}`: the quest, or 404. */
  function ObtenerMision(db: Database, id: int): (r: Result<Mision, Error>)
    reads db
    ensures r.Ok? <==> id in db.misiones
    ensures r.Ok? ==> r.value == db.misiones[id]
    ensures r.Err? ==> r.error == MisionNoEncontrada
  {
    if id in db.misiones then Ok(db.misiones[id]) else Err(MisionNoEncontrada)
  }

  /** `POST /misiones`: a new quest with exactly the given fields. */
  method CrearMision(db: Database, nombre: string, descripcion: string, experiencia: int)
    returns (id: int, m: Mision)
    requires db.Valid()
    modifies db
    ensures db.Valid()
    ensures m == Mision(nombre, descripcion, experiencia)
    ensures id !in old(db.misiones) && db.misiones == old(db.misiones)[id := m]
    ensures db.personajes == old(db.personajes) && db.relaciones == old(db.relaciones)
  {
    m := Mision(nombre, descripcion, experiencia);
    id := db.AddMision(m);
  }

  /** `PUT /misiones/{id}`: replaces the description and nothing else, or 404. */
  method ActualizarMision(db: Database, id: int, descripcion: string) returns (r: Result<Mision, Error>)
    requires db.Valid()
    modifies db
    ensures db.Valid()
    ensures r.Ok? <==> id in old(db.misiones)
    ensures r.Err? ==> r.error == MisionNoEncontrada && db.misiones == old(db.misiones)
    ensures r.Ok? ==> (r.value == old(db.misiones)[id].(descripcion := descripcion)
                       && db.misiones == old(db.misiones)[id := r.value])
    ensures db.personajes == old(db.personajes) && db.relaciones == old(db.relaciones)
  {
    if id !in db.misiones {
      return Err(MisionNoEncontrada);
    }
    db.SetDescripcion(id, descripcion);
    r := Ok(db.misiones[id]);
  }

  /**
   * `DELETE /misiones/{id}`: removes the quest, or 404. Assignment rows are kept, and
   * those that referenced the quest lose the reference.
   */
  method EliminarMision(db: Database, id: int) returns (r: Result<string, Error>)
    requires db.Valid()
    modifies db
    ensures db.Valid()
    ensures r.Ok? <==> id in old(db.misiones)
    ensures r.Err? ==> r.error == MisionNoEncontrada && db.misiones == old(db.misiones)
    ensures r.Err? ==> db.relaciones == old(db.relaciones)
    ensures r.Ok? ==> (r.value == "Misión eliminada" && db.misiones == old(db.misiones) - {id}
                       && db.relaciones == ClearMision(old(db.relaciones), id))
    ensures db.personajes == old(db.personajes)
  {
    if id !in db.misiones {
      return Err(MisionNoEncontrada);
    }
    db.DeleteMision(id);
    r := Ok("Misión eliminada");
  }

  /** `POST /personajes`: a new character with no experience. */
  method CrearPersonaje(db: Database, nombre: string) returns (id: int, p: Personaje)
    requires db.Valid()
    modifies db
    ensures db.Valid()
    ensures p == Personaje(nombre, 0)
    ensures id !in old(db.personajes) && db.personajes == old(db.personajes)[id := p]
    ensures db.misiones == old(db.misiones) && db.relaciones == old(db.relaciones)
  {
    p := Personaje(nombre, 0);
    id := db.AddPersonaje(p);
  }

  /**
   * `POST /aceptar_mision`: a pending row with the supplied order, unless the character
   * is missing (404), the quest is missing (404) or the pair already has a pending
   * row (400), checked in that order.
   */
  method AceptarMision(db: Database, personajeId: int, misionId: int, orden: int) returns (r: Result<string, Error>)
    requires db.Valid()
    modifies db
    ensures db.Valid()
    ensures db.misiones == old(db.misiones) && db.personajes == old(db.personajes)
    ensures personajeId !in old(db.personajes) ==> r == Err(PersonajeNoEncontrado)
    ensures personajeId in old(db.personajes) && misionId !in old(db.misiones) ==> r == Err(MisionNoEncontrada)
    ensures (personajeId in old(db.personajes) && misionId in old(db.misiones)
             && Count(old(db.relaciones), PendientesDe(personajeId, misionId)) > 0) ==> r == Err(MisionYaAceptada)
    ensures r.Ok? <==> (personajeId in old(db.personajes) && misionId in old(db.misiones)
                        && Count(old(db.relaciones), PendientesDe(personajeId, misionId)) == 0)
    ensures r.Err? ==> db.relaciones == old(db.relaciones)
    ensures r.Ok? ==> (r.value == "Misión aceptada correctamente"
                       && db.relaciones == old(db.relaciones)
                                           + [Relacion(old(db.nextRelacionId), personajeId, Some(misionId), orden, false)])
  {
    var personaje := personajeId in db.personajes;
    var mision := misionId in db.misiones;
    if !personaje {
      return Err(PersonajeNoEncontrado);
    }
    if !mision {
      return Err(MisionNoEncontrada);
    }
    var yaAsignada := FirstByOrden(db.relaciones, PendientesDe(personajeId, misionId));
    if yaAsignada.Some? {
      return Err(MisionYaAceptada);
    }
    var _ := db.AddRelacion(personajeId, misionId, orden);
    r := Ok("Misión aceptada correctamente");
  }

  /**
   * `POST /completar_mision`: resolves the earliest pending row of the pair and credits
   * the quest's experience to the character. Errors, in order: quest missing (404),
   * character missing (404), no pending row for the pair (400).
   */
  method CompletarMision(db: Database, personajeId: int, misionId: int) returns (r: Result<Completada, Error>)
    requires db.Valid()
    modifies db
    ensures db.Valid()
    ensures db.misiones == old(db.misiones)
    ensures misionId !in old(db.misiones) ==> r == Err(MisionNoEncontrada)
    ensures misionId in old(db.misiones) && personajeId !in old(db.personajes) ==> r == Err(PersonajeNoEncontrado)
    ensures (misionId in old(db.misiones) && personajeId in old(db.personajes)
             && Count(old(db.relaciones), PendientesDe(personajeId, misionId)) == 0) ==> r == Err(MisionNoAsignada)
    ensures r.Ok? <==> (misionId in old(db.misiones) && personajeId in old(db.personajes)
                        && Count(old(db.relaciones), PendientesDe(personajeId, misionId)) > 0)
    ensures r.Err? ==> db.relaciones == old(db.relaciones) && db.personajes == old(db.personajes)
    ensures r.Ok? ==>
      var ganada := old(db.misiones)[misionId].experiencia;
      var total := old(db.personajes)[personajeId].experiencia + ganada;
      && r.value == Completada("Misión completada con éxito", ganada, total)
      && db.personajes == old(db.personajes)[personajeId := old(db.personajes)[personajeId].(experiencia := total)]
      && (exists i :: IsFirstBy(old(db.relaciones), PendientesDe(personajeId, misionId), i)
                   && db.relaciones == ResolveAt(old(db.relaciones), i))
  {
    var mision := if misionId in db.misiones then Some(db.misiones[misionId]) else None;
    var personaje := personajeId in db.personajes;
    var relacion := FirstByOrden(db.relaciones, PendientesDe(personajeId, misionId));
    if mision.None? {
      return Err(MisionNoEncontrada);
    }
    if !personaje {
      return Err(PersonajeNoEncontrado);
    }
    if relacion.None? {
      return Err(MisionNoAsignada);
    }
    var i := relacion.value;
    if db.relaciones[i].estado {
      // Unreachable: the query above selects only rows with estado == False.
      assert false;
      return Err(MisionYaCompletada);
    }
    db.ResolveRelacion(i, mision.value.experiencia);
    r := Ok(Completada("Misión completada con éxito", mision.value.experiencia, db.personajes[personajeId].experiencia));
  }
}
