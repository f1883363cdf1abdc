/**
 * What the handlers promise over several calls, stated on the assignment table: the
 * queue is FIFO because enqueue orders go up, dequeue and complete each consume exactly
 * one pending row, accept keeps at most one pending row per pair, resolved rows are
 * final, and the listing agrees with `size` while no pending row lost its quest.
 */
module Propiedades {
  import opened Wrappers
  import opened Tabla

  /**
   * An enqueued row goes to the back: the possible heads are unchanged, or the new row
   * is the only head of a queue that was empty.
   */
  lemma EnqueueGoesLast(rows: seq<Relacion>, x: Relacion)
    requires !x.estado && x.orden == NextOrden(rows, x.personajeId)
    ensures Count(rows + [x], Pendientes(x.personajeId)) == Count(rows, Pendientes(x.personajeId)) + 1
    ensures FirstByOrden(rows + [x], Pendientes(x.personajeId))
         == if Count(rows, Pendientes(x.personajeId)) == 0 then Some(|rows|)
            else FirstByOrden(rows, Pendientes(x.personajeId))
    ensures Count(rows, Pendientes(x.personajeId)) > 0 ==>
      forall i :: IsFirstBy(rows + [x], Pendientes(x.personajeId), i) <==> IsFirstBy(rows, Pendientes(x.personajeId), i)
    ensures Count(rows, Pendientes(x.personajeId)) == 0 ==>
      forall i :: IsFirstBy(rows + [x], Pendientes(x.personajeId), i) <==> i == |rows|
  {
    assert (rows + [x])[..|rows|] == rows;
    CountAppend(rows, x, Pendientes(x.personajeId));
    CabezasTrasEncolar(rows, x, Pendientes(x.personajeId));
  }

  /** Appending a matching row whose order exceeds every matching row's adds no head to a non-empty queue. */
  lemma CabezasTrasEncolar(rows: seq<Relacion>, x: Relacion, f: Filtro)
    requires Matches(x, f)
    requires forall j :: 0 <= j < |rows| && Matches(rows[j], f) ==> rows[j].orden < x.orden
    ensures Count(rows, f) > 0 ==> forall i :: IsFirstBy(rows + [x], f, i) <==> IsFirstBy(rows, f, i)
    ensures Count(rows, f) == 0 ==> forall i :: IsFirstBy(rows + [x], f, i) <==> i == |rows|
  {
    var s := rows + [x];
    assert forall j :: 0 <= j < |rows| ==> s[j] == rows[j];
    if Count(rows, f) > 0 {
      var k :| 0 <= k < |rows| && Matches(rows[k], f);
      assert !IsFirstBy(s, f, |rows|) by { assert s[k] == rows[k]; }
    }
  }

  /**
   * Enqueuing q1 and then q2 on a character with an empty queue: the head is q1's row;
   * once it is dequeued, the head is q2's row.
   */
  lemma {:induction false} FifoDosMisiones(rows: seq<Relacion>, personajeId: int, id1: int, q1: int, id2: int, q2: int)
    requires Count(rows, Pendientes(personajeId)) == 0
    ensures
      var r1 := rows + [Relacion(id1, personajeId, Some(q1), NextOrden(rows, personajeId), false)];
      var r2 := r1 + [Relacion(id2, personajeId, Some(q2), NextOrden(r1, personajeId), false)];
      && FirstByOrden(r2, Pendientes(personajeId)) == Some(|rows|) && r2[|rows|].misionId == Some(q1)
      && FirstByOrden(DeleteAt(r2, |rows|), Pendientes(personajeId)) == Some(|rows|)
      && DeleteAt(r2, |rows|)[|rows|].misionId == Some(q2)
      && (forall i :: IsFirstBy(r2, Pendientes(personajeId), i) <==> i == |rows|)
      && (forall i :: IsFirstBy(DeleteAt(r2, |rows|), Pendientes(personajeId), i) <==> i == |rows|)
  {
    var x1 := Relacion(id1, personajeId, Some(q1), NextOrden(rows, personajeId), false);
    var r1 := rows + [x1];
    var x2 := Relacion(id2, personajeId, Some(q2), NextOrden(r1, personajeId), false);
    var r2 := r1 + [x2];
    EnqueueGoesLast(rows, x1);
    EnqueueGoesLast(r1, x2);
    assert DeleteAt(r2, |rows|) == rows + [x2];
    PrimeraTrasColaVacia(rows, x2, Pendientes(personajeId));
    forall i ensures IsFirstBy(rows + [x2], Pendientes(personajeId), i) <==> i == |rows| {
      if 0 <= i < |rows| {
        assert (rows + [x2])[i] == rows[i];
      }
    }
  }

  /** A matching row appended after rows none of which match is the first by order. */
  lemma PrimeraTrasColaVacia(rows: seq<Relacion>, x: Relacion, f: Filtro)
    requires Count(rows, f) == 0 && Matches(x, f)
    ensures FirstByOrden(rows + [x], f) == Some(|rows|)
  {
    assert (rows + [x])[..|rows|] == rows;
  }

  /** Dequeue removes exactly the head row: one pending row of the character, nothing else. */
  lemma DequeueRemovesHead(rows: seq<Relacion>, personajeId: int, i: nat)
    requires IsFirstBy(rows, Pendientes(personajeId), i)
    ensures multiset(DeleteAt(rows, i)) == multiset(rows) - multiset{rows[i]}
    ensures Count(DeleteAt(rows, i), Pendientes(personajeId)) == Count(rows, Pendientes(personajeId)) - 1
    ensures forall f: Filtro :: f.estado == Some(true) || f.personajeId != personajeId ==>
      Count(DeleteAt(rows, i), f) == Count(rows, f)
  {
    assert rows == rows[..i] + [rows[i]] + rows[i + 1..];
    CountDeleteAt(rows, i, Pendientes(personajeId));
    forall f: Filtro | f.estado == Some(true) || f.personajeId != personajeId
      ensures Count(DeleteAt(rows, i), f) == Count(rows, f)
    {
      CountDeleteAt(rows, i, f);
    }
  }

  /**
   * Completing resolves one pending row of the pair: the pair and the character each
   * have one pending row less, and the character's rows, resolved included, are as many.
   */
  lemma CompletarConsumePendiente(rows: seq<Relacion>, personajeId: int, misionId: int, i: nat)
    requires IsFirstBy(rows, PendientesDe(personajeId, misionId), i)
    ensures Count(ResolveAt(rows, i), PendientesDe(personajeId, misionId))
         == Count(rows, PendientesDe(personajeId, misionId)) - 1
    ensures Count(ResolveAt(rows, i), Pendientes(personajeId)) == Count(rows, Pendientes(personajeId)) - 1
    ensures forall p :: Count(ResolveAt(rows, i), DelPersonaje(p)) == Count(rows, DelPersonaje(p))
    ensures NextOrden(ResolveAt(rows, i), personajeId) == NextOrden(rows, personajeId)
  {
    var r := ResolveAt(rows, i);
    CountUpdateAt(rows, i, r[i], PendientesDe(personajeId, misionId));
    CountUpdateAt(rows, i, r[i], Pendientes(personajeId));
    forall p ensures Count(r, DelPersonaje(p)) == Count(rows, DelPersonaje(p)) {
      CountUpdateAt(rows, i, r[i], DelPersonaje(p));
    }
    SameOrdersSameNext(rows, r, personajeId);
  }

  /** NextOrden reads only characters and orders, which resolving leaves alone. */
  lemma SameOrdersSameNext(a: seq<Relacion>, b: seq<Relacion>, personajeId: int)
    requires |a| == |b|
    requires forall k :: 0 <= k < |a| ==> a[k].personajeId == b[k].personajeId && a[k].orden == b[k].orden
    ensures NextOrden(a, personajeId) == NextOrden(b, personajeId)
  {
    var na, nb := NextOrden(a, personajeId), NextOrden(b, personajeId);
    if Count(a, DelPersonaje(personajeId)) > 0 {
      var i :| 0 <= i < |a| && a[i].personajeId == personajeId && a[i].orden == na - 1;
      assert Matches(b[i], DelPersonaje(personajeId));
      var j :| 0 <= j < |b| && b[j].personajeId == personajeId && b[j].orden == nb - 1;
      assert a[j].orden < na && b[i].orden < nb;
    }
  }

  /** A second accept of the same pair, with nothing in between, finds the pending row. */
  lemma AceptarDosVeces(rows: seq<Relacion>, x: Relacion)
    requires !x.estado && x.misionId.Some?
    ensures Count(rows + [x], PendientesDe(x.personajeId, x.misionId.value)) > 0
  {
    CountAppend(rows, x, PendientesDe(x.personajeId, x.misionId.value));
  }

  /** The invariant accept is meant to keep: at most one pending row per (character, quest). */
  predicate UnaPendientePorPar(rows: seq<Relacion>)
  {
    forall i, j ::
      (0 <= i < j < |rows| && rows[i].misionId.Some?
       && Matches(rows[j], PendientesDe(rows[i].personajeId, rows[i].misionId.value)))
      ==> rows[i].estado
  }

  /** Under the invariant a pair has at most one pending row. */
  lemma {:induction false} UnaPendienteCuentaUno(rows: seq<Relacion>, personajeId: int, misionId: int)
    requires UnaPendientePorPar(rows)
    ensures Count(rows, PendientesDe(personajeId, misionId)) <= 1
  {
    if rows != [] {
      var k := |rows| - 1;
      var f := PendientesDe(personajeId, misionId);
      assert UnaPendientePorPar(rows[..k]);
      UnaPendienteCuentaUno(rows[..k], personajeId, misionId);
    }
  }

  /** Accept, which appends only when the pair has no pending row, keeps the invariant. */
  lemma UnaPendienteTrasAceptar(rows: seq<Relacion>, x: Relacion)
    requires UnaPendientePorPar(rows)
    ensures x.misionId.Some? && Count(rows, PendientesDe(x.personajeId, x.misionId.value)) == 0
            ==> UnaPendientePorPar(rows + [x])
  {
    if x.misionId.Some? && Count(rows, PendientesDe(x.personajeId, x.misionId.value)) == 0 {
      var s := rows + [x];
      forall a, b | 0 <= a < b < |s| && s[a].misionId.Some?
        && Matches(s[b], PendientesDe(s[a].personajeId, s[a].misionId.value))
        ensures s[a].estado
      {
        if b == |rows| {
          assert !Matches(rows[a], PendientesDe(x.personajeId, x.misionId.value));
        }
      }
    }
  }

  /** Resolving a row (complete) keeps the invariant. */
  lemma UnaPendienteTrasResolver(rows: seq<Relacion>, i: nat)
    requires UnaPendientePorPar(rows) && i < |rows|
    ensures UnaPendientePorPar(ResolveAt(rows, i))
  {
  }

  /** Deleting a row (dequeue) keeps the invariant. */
  lemma UnaPendienteTrasBorrar(rows: seq<Relacion>, i: nat)
    requires UnaPendientePorPar(rows) && i < |rows|
    ensures UnaPendientePorPar(DeleteAt(rows, i))
  {
    var d := DeleteAt(rows, i);
    forall a, b | 0 <= a < b < |d| && d[a].misionId.Some?
      && Matches(d[b], PendientesDe(d[a].personajeId, d[a].misionId.value))
      ensures d[a].estado
    {
      var a' := if a < i then a else a + 1;
      var b' := if b < i then b else b + 1;
      assert d[a] == rows[a'] && d[b] == rows[b'];
    }
  }

  /** Deleting a quest, which clears the references to it, keeps the invariant. */
  lemma UnaPendienteTrasEliminarMision(rows: seq<Relacion>, misionId: int)
    requires UnaPendientePorPar(rows)
    ensures UnaPendientePorPar(ClearMision(rows, misionId))
  {
    var c := ClearMision(rows, misionId);
    forall a, b | 0 <= a < b < |c| && c[a].misionId.Some?
      && Matches(c[b], PendientesDe(c[a].personajeId, c[a].misionId.value))
      ensures c[a].estado
    {
      assert c[a] == rows[a] && c[b].misionId == rows[b].misionId;
    }
  }

  /** Enqueue, which does not look for a pending duplicate, can break the invariant. */
  lemma EnqueueDuplica()
    ensures var rows := [Relacion(1, 1, Some(7), 0, false)];
      && UnaPendientePorPar(rows)
      && !UnaPendientePorPar(rows + [Relacion(2, 1, Some(7), NextOrden(rows, 1), false)])
  {
    var rows := [Relacion(1, 1, Some(7), 0, false)];
    var s := rows + [Relacion(2, 1, Some(7), NextOrden(rows, 1), false)];
    assert Matches(s[1], PendientesDe(s[0].personajeId, s[0].misionId.value));
  }

  /** Under the invariant, completing the same pair twice without a new accept fails the second time. */
  lemma CompletarNoRepetible(rows: seq<Relacion>, personajeId: int, misionId: int, i: nat)
    requires UnaPendientePorPar(rows)
    requires IsFirstBy(rows, PendientesDe(personajeId, misionId), i)
    ensures Count(ResolveAt(rows, i), PendientesDe(personajeId, misionId)) == 0
  {
    UnaPendienteCuentaUno(rows, personajeId, misionId);
    CompletarConsumePendiente(rows, personajeId, misionId, i);
  }

  /** Resolved is final: neither resolving nor deleting a pending row loses a resolved row. */
  lemma ResueltasPermanecen(rows: seq<Relacion>, i: nat)
    requires i < |rows| && !rows[i].estado
    ensures forall r :: r in rows && r.estado ==> r in ResolveAt(rows, i) && r in DeleteAt(rows, i)
  {
    forall r | r in rows && r.estado
      ensures r in ResolveAt(rows, i) && r in DeleteAt(rows, i)
    {
      var j :| 0 <= j < |rows| && rows[j] == r;
      assert j != i;
      assert ResolveAt(rows, i)[j] == r;
      assert DeleteAt(rows, i)[if j < i then j else j - 1] == r;
    }
  }

  /** While every pending row of the character still has its quest, the listing is as long as `size`. */
  lemma ListadoIgualTamano(rows: seq<Relacion>, misiones: set<int>, personajeId: int)
    requires forall i :: 0 <= i < |rows| && Matches(rows[i], Pendientes(personajeId)) ==> Joins(rows[i], misiones)
    ensures |ActiveRows(rows, misiones, personajeId)| == Count(rows, Pendientes(personajeId))
  {
    var s := Select(rows, Pendientes(personajeId));
    forall k | 0 <= k < |s| ensures Joins(s[k], misiones) {
      assert s[k] in s;
    }
    assert Joined(s, misiones) == s;
    assert |multiset(ActiveRows(rows, misiones, personajeId))| == |multiset(s)|;
  }

  /**
   * Deleting a quest keeps every row and every order, so the queues, their sizes and the
   * next enqueue order are unchanged; no row references the deleted quest afterwards.
   */
  lemma {:induction false} EliminarMisionConservaColas(rows: seq<Relacion>, misionId: int, f: Filtro)
    requires f.misionId.None?
    ensures Count(ClearMision(rows, misionId), f) == Count(rows, f)
    ensures forall j :: 0 <= j < |rows| ==> ClearMision(rows, misionId)[j].misionId != Some(misionId)
  {
    if rows != [] {
      var k := |rows| - 1;
      var c := ClearMision(rows, misionId);
      assert c[..k] == ClearMision(rows[..k], misionId);
      EliminarMisionConservaColas(rows[..k], misionId, f);
    }
  }

  /**
   * A pending row is listed while its quest exists. Once the quest is deleted the row
   * stays in the table with its reference cleared and still counts in `size`, but is
   * no longer listed.
   */
  lemma ListadoOmiteMisionBorrada(rows: seq<Relacion>, misiones: set<int>, personajeId: int, x: Relacion)
    requires x in rows && Matches(x, Pendientes(personajeId)) && Joins(x, misiones)
    ensures x in ActiveRows(rows, misiones, personajeId)
    ensures Count(ClearMision(rows, x.misionId.value), Pendientes(personajeId)) == Count(rows, Pendientes(personajeId))
    ensures x.(misionId := None) in ClearMision(rows, x.misionId.value)
    ensures x.(misionId := None) !in ActiveRows(ClearMision(rows, x.misionId.value), misiones - {x.misionId.value}, personajeId)
  {
    EliminarMisionConservaColas(rows, x.misionId.value, Pendientes(personajeId));
    var j :| 0 <= j < |rows| && rows[j] == x;
    assert ClearMision(rows, x.misionId.value)[j] == x.(misionId := None);
  }
}
