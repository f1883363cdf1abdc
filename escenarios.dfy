/**
 * Client runs of the handlers on a fresh database, proved from the handlers'
 * contracts alone: a character accepts and completes a quest, and a two-quest queue
 * is served first in, first out.
 */
module Escenarios {
  import opened Wrappers
  import opened Errores
  import opened Tabla
  import opened Almacen
  import opened Cola
  import opened Api
  import opened Propiedades

  /**
   * Aria (experience 0) accepts "Slay Dragon" (worth 50): the listing then holds the
   * quest, and accepting it again is refused.
   */
  method EscenarioAriaAcepta()
    returns (dragon: int, repetida: Result<string, Error>, antes: Result<seq<(int, Mision)>, Error>)
    ensures repetida == Err(MisionYaAceptada)
    ensures antes == Ok([(dragon, Mision("Slay Dragon", "", 50))])
  {
    var db, aria, row;
    db, aria, dragon, row := AriaAceptaDragon();
    repetida := AceptarMision(db, aria, dragon, 0) by {
      AceptarDosVeces([], row);
    }
    antes := ObtenerMisionesPorPersonaje(db, aria);
    assert antes == Ok([(dragon, Mision("Slay Dragon", "", 50))]) by {
      CountSingle(row, Pendientes(aria));
      ListadoIgualTamano(db.relaciones, db.misiones.Keys, aria);
      var s := ActiveRows(db.relaciones, db.misiones.Keys, aria);
      assert |s| == 1 && s[0] in s && s[0] == row;
      assert db.relaciones == [row];
      assert antes.Ok? && |antes.value| == 1;
      assert antes.value[0] == (dragon, db.misiones[dragon]) == (dragon, Mision("Slay Dragon", "", 50));
      assert antes.value == [antes.value[0]];
    }
  }

  /**
   * Aria completes the accepted "Slay Dragon": she earns 50 for a total of 50, the
   * listing is then empty, and completing it again is refused.
   */
  method EscenarioAriaCompleta()
    returns (completada: Result<Completada, Error>, despues: Result<seq<(int, Mision)>, Error>,
             otraVez: Result<Completada, Error>)
    ensures completada == Ok(Completada("Misión completada con éxito", 50, 50))
    ensures despues == Ok([])
    ensures otraVez == Err(MisionNoAsignada)
  {
    var db, aria, dragon, row := AriaAceptaDragon();
    completada := CompletarMision(db, aria, dragon) by {
      CountSingle(row, PendientesDe(aria, dragon));
    }
    assert completada == Ok(Completada("Misión completada con éxito", 50, 50)) by {
      assert completada.Ok?;
      assert completada.value.experienciaGanada == 50;
      assert completada.value.experienciaTotal == 50;
    }
    assert db.relaciones == [row.(estado := true)];
    despues := ObtenerMisionesPorPersonaje(db, aria);
    assert despues == Ok([]) by {
      CountSingle(row.(estado := true), Pendientes(aria));
      ListadoIgualTamano(db.relaciones, db.misiones.Keys, aria);
    }
    otraVez := CompletarMision(db, aria, dragon) by {
      CountSingle(row.(estado := true), PendientesDe(aria, dragon));
    }
  }

  /** A fresh database where the character Aria has accepted the quest "Slay Dragon". */
  method AriaAceptaDragon() returns (db: Database, aria: int, dragon: int, row: Relacion)
    ensures fresh(db) && db.Valid()
    ensures db.personajes == map[aria := Personaje("Aria", 0)]
    ensures db.misiones == map[dragon := Mision("Slay Dragon", "", 50)]
    ensures db.relaciones == [row] && row == Relacion(row.id, aria, Some(dragon), 0, false)
  {
    db := new Database();
    var p, m;
    aria, p := CrearPersonaje(db, "Aria");
    dragon, m := CrearMision(db, "Slay Dragon", "", 50);
    var aceptada := AceptarMision(db, aria, dragon, 0) by {
      CountSingle(Relacion(0, aria, Some(dragon), 0, false), PendientesDe(aria, dragon));
    }
    row := db.relaciones[0];
  }

  /**
   * Enqueue q1 then q2 on an empty queue: `first` gives q1, `dequeue` returns q1, `first`
   * then gives q2; after a second dequeue the queue is empty.
   */
  method EscenarioCola()
    returns (q1: int, q2: int, primero: Result<Option<(int, Mision)>, Error>, sacada: Result<Option<int>, Error>,
             segundo: Result<Option<(int, Mision)>, Error>, sacada2: Result<Option<int>, Error>, vacia: bool)
    ensures q1 != q2
    ensures primero == Ok(Some((q1, Mision("Q1", "", 10)))) && sacada == Ok(Some(q1))
    ensures segundo == Ok(Some((q2, Mision("Q2", "", 20)))) && sacada2 == Ok(Some(q2))
    ensures vacia
  {
    var db, cola, x1, x2;
    db, cola, q1, q2, x1, x2 := ColaDeDos();
    var p := cola.personajeId;
    DosEnCola(x1, x2, p, q1, q2);
    primero, sacada := Atender(cola, q1);
    assert db.relaciones == [x2];
    segundo, sacada2 := Atender(cola, q2);
    vacia := cola.IsEmpty();
  }

  /**
   * On a queue whose head is a single row referencing the stored quest `q`, `first`
   * gives that quest and `dequeue` then returns `q` and removes exactly the head.
   */
  method Atender(cola: ColaMisiones, q: int)
    returns (primero: Result<Option<(int, Mision)>, Error>, sacada: Result<Option<int>, Error>)
    requires cola.db.Valid() && q in cola.db.misiones
    requires IsFirstBy(cola.db.relaciones, Pendientes(cola.personajeId), 0)
    requires forall i :: IsFirstBy(cola.db.relaciones, Pendientes(cola.personajeId), i) ==> i == 0
    requires cola.db.relaciones[0].misionId == Some(q)
    modifies cola.db
    ensures cola.db.Valid() && cola.db.misiones == old(cola.db.misiones)
    ensures primero == Ok(Some((q, cola.db.misiones[q]))) && sacada == Ok(Some(q))
    ensures cola.db.relaciones == old(cola.db.relaciones)[1..]
  {
    primero := cola.First();
    sacada := cola.Dequeue();
    assert DeleteAt(old(cola.db.relaciones), 0) == old(cola.db.relaciones)[1..];
  }

  /** The table after enqueuing q1 then q2 (orders 0 and 1), dequeued twice from the head. */
  lemma DosEnCola(x1: Relacion, x2: Relacion, p: int, q1: int, q2: int)
    requires x1 == Relacion(x1.id, p, Some(q1), 0, false) && x2 == Relacion(x2.id, p, Some(q2), 1, false)
    ensures Count([x1, x2], Pendientes(p)) == 2 && FirstByOrden([x1, x2], Pendientes(p)) == Some(0)
    ensures forall i :: IsFirstBy([x1, x2], Pendientes(p), i) ==> i == 0
    ensures DeleteAt([x1, x2], 0) == [x2]
    ensures Count([x2], Pendientes(p)) == 1 && FirstByOrden([x2], Pendientes(p)) == Some(0)
    ensures DeleteAt([x2], 0) == [] && Count([], Pendientes(p)) == 0
  {
    UnaEnCola(x1, p);
    UnaEnCola(x2, p);
    var rows := [x1, x2];
    assert rows[..1] == [x1];
    assert Count(rows, Pendientes(p)) == 2;
    assert FirstByOrden(rows, Pendientes(p)) == Some(0);
    assert DeleteAt(rows, 0) == [x2];
  }

  /** A table of one pending row: that row is the whole queue and its head. */
  lemma UnaEnCola(x: Relacion, p: int)
    requires x.personajeId == p && !x.estado
    ensures Count([x], Pendientes(p)) == 1 && FirstByOrden([x], Pendientes(p)) == Some(0)
    ensures DeleteAt([x], 0) == []
  {
    assert [x][..0] == [];
  }

  /** A fresh database whose only character has enqueued two distinct quests, q1 then q2. */
  method ColaDeDos() returns (db: Database, cola: ColaMisiones, q1: int, q2: int, x1: Relacion, x2: Relacion)
    ensures fresh(db) && db.Valid() && cola.db == db
    ensures q1 != q2
    ensures db.misiones == map[q1 := Mision("Q1", "", 10), q2 := Mision("Q2", "", 20)]
    ensures db.relaciones == [x1, x2]
    ensures x1 == Relacion(x1.id, cola.personajeId, Some(q1), NextOrden([], cola.personajeId), false)
    ensures x2 == Relacion(x2.id, cola.personajeId, Some(q2), NextOrden([x1], cola.personajeId), false)
    ensures x1.orden == 0 && x2.orden == 1
  {
    db := new Database();
    var p, _ := CrearPersonaje(db, "Aria");
    var m1, m2;
    q1, m1 := CrearMision(db, "Q1", "", 10);
    q2, m2 := CrearMision(db, "Q2", "", 20);
    cola := new ColaMisiones(db, p);
    var _ := cola.Enqueue(q1);
    x1 := db.relaciones[0];
    assert db.relaciones == [] + [x1];
    var _ := cola.Enqueue(q2);
    x2 := db.relaciones[1];
    assert db.relaciones == [x1] + [x2];
  }
}
