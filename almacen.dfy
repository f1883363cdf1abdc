/**
 * The database the handlers share: the `misiones` and `personajes` tables keyed by id,
 * the `misiones_personaje` rows in table order, and the next identity of each table.
 * Each method is one session's `add`/`delete`/attribute update followed by `commit`.
 */
module Almacen {
  import opened Wrappers
  import opened Tabla

  class Database {
    var misiones: map<int, Mision>
    var personajes: map<int, Personaje>
    var relaciones: seq<Relacion>
    var nextMisionId: int
    var nextPersonajeId: int
    var nextRelacionId: int

    /** Every identity handed out so far is below its table's counter, so new ones are fresh. */
    ghost predicate Valid()
      reads this
    {
      && (forall id :: id in misiones ==> id < nextMisionId)
      && (forall id :: id in personajes ==> id < nextPersonajeId)
      && (forall i :: 0 <= i < |relaciones| ==> relaciones[i].id < nextRelacionId)
    }

    /** `Base.metadata.create_all` on an empty database: identities start at 1. */
    constructor ()
      ensures Valid()
      ensures misiones == map[] && personajes == map[] && relaciones == []
    {
      misiones, personajes, relaciones := map[], map[], [];
      nextMisionId, nextPersonajeId, nextRelacionId := 1, 1, 1;
    }

    /** `db.add(Mision(...))`: a new quest under a fresh id. */
    method AddMision(m: Mision) returns (id: int)
      requires Valid()
      modifies this
      ensures Valid()
      ensures id !in old(misiones) && misiones == old(misiones)[id := m]
      ensures personajes == old(personajes) && relaciones == old(relaciones)
    {
      id := nextMisionId;
      misiones := misiones[id := m];
      nextMisionId := nextMisionId + 1;
    }

    /** `db.add(Personaje(...))`: a new character under a fresh id. */
    method AddPersonaje(p: Personaje) returns (id: int)
      requires Valid()
      modifies this
      ensures Valid()
      ensures id !in old(personajes) && personajes == old(personajes)[id := p]
      ensures misiones == old(misiones) && relaciones == old(relaciones)
    {
      id := nextPersonajeId;
      personajes := personajes[id := p];
      nextPersonajeId := nextPersonajeId + 1;
    }

    /** `db.add(MisionPersonaje(...))`: a new pending row at the end of the table. */
    method AddRelacion(personajeId: int, misionId: int, orden: int) returns (row: Relacion)
      requires Valid()
      modifies this
      ensures Valid()
      ensures row == Relacion(old(nextRelacionId), personajeId, Some(misionId), orden, false)
      ensures forall i :: 0 <= i < |old(relaciones)| ==> old(relaciones)[i].id != row.id
      ensures relaciones == old(relaciones) + [row]
      ensures misiones == old(misiones) && personajes == old(personajes)
    {
      row := Relacion(nextRelacionId, personajeId, Some(misionId), orden, false);
      relaciones := relaciones + [row];
      nextRelacionId := nextRelacionId + 1;
    }

    /** `db.delete(row)` of the row at index i. */
    method DeleteRelacion(i: nat)
      requires Valid() && i < |relaciones|
      modifies this
      ensures Valid()
      ensures relaciones == DeleteAt(old(relaciones), i)
      ensures misiones == old(misiones) && personajes == old(personajes)
      ensures nextRelacionId == old(nextRelacionId)
    {
      relaciones := DeleteAt(relaciones, i);
    }

    /** `relacion.estado = True` on the row at index i, and its character credited `delta`. */
    method ResolveRelacion(i: nat, delta: int)
      requires Valid() && i < |relaciones| && relaciones[i].personajeId in personajes
      modifies this
      ensures Valid()
      ensures relaciones == ResolveAt(old(relaciones), i)
      ensures var p := old(relaciones)[i].personajeId;
        personajes == old(personajes)[p := old(personajes)[p].(experiencia := old(personajes)[p].experiencia + delta)]
      ensures misiones == old(misiones) && nextRelacionId == old(nextRelacionId)
    {
      var p := relaciones[i].personajeId;
      personajes := personajes[p := personajes[p].(experiencia := personajes[p].experiencia + delta)];
      relaciones := ResolveAt(relaciones, i);
    }

    /** `mision.descripcion = d` on an existing quest. */
    method SetDescripcion(id: int, descripcion: string)
      requires Valid() && id in misiones
      modifies this
      ensures Valid()
      ensures misiones == old(misiones)[id := old(misiones)[id].(descripcion := descripcion)]
      ensures personajes == old(personajes) && relaciones == old(relaciones)
    {
      misiones := misiones[id := misiones[id].(descripcion := descripcion)];
    }

    /** `db.delete(mision)`: the quest goes; the rows that reference it stay, their reference cleared. */
    method DeleteMision(id: int)
      requires Valid() && id in misiones
      modifies this
      ensures Valid()
      ensures misiones == old(misiones) - {id}
      ensures relaciones == ClearMision(old(relaciones), id)
      ensures personajes == old(personajes)
    {
      misiones := misiones - {id};
      relaciones := ClearMision(relaciones, id);
    }
  }
}
