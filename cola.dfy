/**
 * `ColaMisiones`: the FIFO view of one character's pending rows, ordered by `orden`.
 * It owns nothing; enqueue and dequeue change the shared assignment table.
 */
module Cola {
  import opened Wrappers
  import opened Errores
  import opened Tabla
  import opened Almacen

  class ColaMisiones {
    const db: Database
    const personajeId: int

    constructor (db: Database, personajeId: int)
      ensures this.db == db && this.personajeId == personajeId
    {
      this.db := db;
      this.personajeId := personajeId;
    }

    /**
     * `enqueue`: a pending row for `misionId` whose `orden` exceeds every order the
     * character has ever held. Neither the character nor the quest is looked up, and a
     * pending duplicate is not refused.
     */
    method Enqueue(misionId: int) returns (mensaje: string)
      requires db.Valid()
      modifies db
      ensures db.Valid()
      ensures db.relaciones == old(db.relaciones)
        + [Relacion(old(db.nextRelacionId), personajeId, Some(misionId), NextOrden(old(db.relaciones), personajeId), false)]
      ensures db.misiones == old(db.misiones) && db.personajes == old(db.personajes)
      ensures mensaje == "Misión encolada correctamente"
    {
      var siguienteOrden := match MaxOrden(db.relaciones, DelPersonaje(personajeId))
        case Some(maxOrden) => maxOrden + 1
        case None => 0;
      var _ := db.AddRelacion(personajeId, misionId, siguienteOrden);
      mensaje := "Misión encolada correctamente";
    }

    /**
     * `dequeue`: deletes the head of the queue (a pending row of minimal `orden`) and
     * returns its quest reference (None if that quest was deleted); fails with
     * "La cola está vacía" on an empty queue. No experience is granted.
     */
    method Dequeue() returns (r: Result<Option<int>, Error>)
      requires db.Valid()
      modifies db
      ensures db.Valid()
      ensures db.misiones == old(db.misiones) && db.personajes == old(db.personajes)
      ensures r.Err? <==> Count(old(db.relaciones), Pendientes(personajeId)) == 0
      ensures r.Err? ==> r.error == ColaVacia && db.relaciones == old(db.relaciones)
      ensures r.Ok? ==> (exists i :: IsFirstBy(old(db.relaciones), Pendientes(personajeId), i)
                                  && r.value == old(db.relaciones)[i].misionId
                                  && db.relaciones == DeleteAt(old(db.relaciones), i))
    {
      var primera := FirstByOrden(db.relaciones, Pendientes(personajeId));
      if primera.None? {
        return Err(ColaVacia);
      }
      var i := primera.value;
      r := Ok(db.relaciones[i].misionId);
      db.DeleteRelacion(i);
    }

    /**
     * `first`: the quest record (with its id) the head of the queue references, None when
     * the reference is NULL or names no stored quest; "La cola está vacía" on an empty queue.
     */
    function First(): (r: Result<Option<(int, Mision)>, Error>)
      reads db
      ensures r.Err? <==> Count(db.relaciones, Pendientes(personajeId)) == 0
      ensures r.Err? ==> r.error == ColaVacia
      ensures r.Ok? ==> (exists i :: IsFirstBy(db.relaciones, Pendientes(personajeId), i)
                                  && r.value == Referida(db.misiones, db.relaciones[i].misionId))
      ensures r.Ok? && r.value.Some? ==> r.value.value.0 in db.misiones
    {
      match FirstByOrden(db.relaciones, Pendientes(personajeId))
      case None => Err(ColaVacia)
      case Some(i) => Ok(Referida(db.misiones, db.relaciones[i].misionId))
    }

    /** `is_empty`: whether the character has no pending row. */
    function IsEmpty(): (vacia: bool)
      reads db
      ensures vacia <==> forall i :: 0 <= i < |db.relaciones| ==>
        db.relaciones[i].personajeId != personajeId || db.relaciones[i].estado
    {
      Count(db.relaciones, Pendientes(personajeId)) == 0
    }

    /** `size`: the number of the character's pending rows. */
    function Size(): (cantidad: nat)
      reads db
      ensures cantidad == |Select(db.relaciones, Pendientes(personajeId))|
      ensures cantidad == 0 <==> IsEmpty()
    {
      Count(db.relaciones, Pendientes(personajeId))
    }
  }
}
