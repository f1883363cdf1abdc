/**
 * The three tables of main.py as values, and the queries the handlers run on the
 * assignment table `misiones_personaje`: `filter_by(...)`, `.count()`,
 * `.order_by(orden.asc()).first()`, `.order_by(orden.desc()).first()`,
 * `.order_by(orden.asc()).all()` and the inner `join(Mision)`.
 * Rows are kept in table (insertion) order; a query's answer is a function of them.
 */
module Tabla {
  import opened Wrappers

  /** A row of `misiones` (the creation timestamp is left out). */
  datatype Mision = Mision(nombre: string, descripcion: string, experiencia: int)

  /** A row of `personajes`. */
  datatype Personaje = Personaje(nombre: string, experiencia: int)

  /**
   * A row of `misiones_personaje`: `estado == false` is pending, `true` resolved.
   * `misionId` is None once the referenced quest has been deleted (the column is NULL).
   */
  datatype Relacion = Relacion(id: int, personajeId: int, misionId: Option<int>, orden: int, estado: bool)

  /** The equality filters of `filter_by`; a column left `None` is not filtered on. */
  datatype Filtro = Filtro(personajeId: int, misionId: Option<int>, estado: Option<bool>)

  predicate Matches(r: Relacion, f: Filtro)
  {
    && r.personajeId == f.personajeId
    && (f.misionId.Some? ==> r.misionId == f.misionId)
    && (f.estado.Some? ==> r.estado == f.estado.value)
  }

  /** `filter_by(personaje_id=p, estado=False)`: the character's queue. */
  function Pendientes(personajeId: int): Filtro
  {
    Filtro(personajeId, None, Some(false))
  }

  /** `filter_by(personaje_id=p, mision_id=m, estado=False)`. */
  function PendientesDe(personajeId: int, misionId: int): Filtro
  {
    Filtro(personajeId, Some(misionId), Some(false))
  }

  /** `filter_by(personaje_id=p)`: every row of the character, resolved ones included. */
  function DelPersonaje(personajeId: int): Filtro
  {
    Filtro(personajeId, None, None)
  }

  /** `.count()` of the rows a filter selects. */
  function Count(rows: seq<Relacion>, f: Filtro): (n: nat)
    ensures n <= |rows|
    ensures n == 0 <==> forall i :: 0 <= i < |rows| ==> !Matches(rows[i], f)
  {
    if rows == [] then 0
    else Count(rows[..|rows| - 1], f) + (if Matches(rows[|rows| - 1], f) then 1 else 0)
  }

  /** The rows a filter selects, in table order. */
  function Select(rows: seq<Relacion>, f: Filtro): (s: seq<Relacion>)
    ensures |s| == Count(rows, f)
    ensures forall r :: r in s <==> r in rows && Matches(r, f)
  {
    if rows == [] then []
    else
      var last := rows[|rows| - 1];
      assert rows == rows[..|rows| - 1] + [last];
      Select(rows[..|rows| - 1], f) + (if Matches(last, f) then [last] else [])
  }

  /**
   * `.order_by(orden.asc()).first()`: the index of a selected row whose `orden` is
   * minimal, or None when the filter selects nothing. Among rows of equal `orden`
   * the earliest in table order is chosen.
   */
  function FirstByOrden(rows: seq<Relacion>, f: Filtro): (o: Option<nat>)
    ensures o.None? <==> Count(rows, f) == 0
    ensures o.Some? ==> o.value < |rows| && Matches(rows[o.value], f)
    ensures o.Some? ==> forall j :: 0 <= j < |rows| && Matches(rows[j], f) ==> rows[o.value].orden <= rows[j].orden
    ensures o.Some? ==> forall j :: 0 <= j < o.value && Matches(rows[j], f) ==> rows[o.value].orden < rows[j].orden
  {
    if rows == [] then None
    else
      var k := |rows| - 1;
      var o := FirstByOrden(rows[..k], f);
      if !Matches(rows[k], f) then o
      else if o.None? || rows[k].orden < rows[o.value].orden then Some(k)
      else o
  }

  /** Row i is selected by the filter and no selected row has a smaller `orden`. */
  predicate IsFirstBy(rows: seq<Relacion>, f: Filtro, i: int)
  {
    && 0 <= i < |rows|
    && Matches(rows[i], f)
    && forall j :: 0 <= j < |rows| && Matches(rows[j], f) ==> rows[i].orden <= rows[j].orden
  }

  /** The `orden` of `.order_by(orden.desc()).first()`, or None when nothing is selected. */
  function MaxOrden(rows: seq<Relacion>, f: Filtro): (o: Option<int>)
    ensures o.None? <==> Count(rows, f) == 0
    ensures o.Some? ==> exists i :: 0 <= i < |rows| && Matches(rows[i], f) && rows[i].orden == o.value
    ensures o.Some? ==> forall i :: 0 <= i < |rows| && Matches(rows[i], f) ==> rows[i].orden <= o.value
  {
    if rows == [] then None
    else
      var k := |rows| - 1;
      var o := MaxOrden(rows[..k], f);
      if !Matches(rows[k], f) then o
      else if o.None? || o.value < rows[k].orden then Some(rows[k].orden)
      else
        ghost var i :| 0 <= i < k && Matches(rows[..k][i], f) && rows[..k][i].orden == o.value;
        assert rows[i] == rows[..k][i];
        o
  }

  /**
   * The order `enqueue` gives a new row: one more than the largest `orden` over all of
   * the character's rows, resolved ones included, or 0 when the character has none.
   */
  function NextOrden(rows: seq<Relacion>, personajeId: int): (n: int)
    ensures forall i :: 0 <= i < |rows| && rows[i].personajeId == personajeId ==> rows[i].orden < n
    ensures Count(rows, DelPersonaje(personajeId)) == 0 ==> n == 0
    ensures Count(rows, DelPersonaje(personajeId)) > 0 ==>
      exists i :: 0 <= i < |rows| && rows[i].personajeId == personajeId && rows[i].orden == n - 1
  {
    match MaxOrden(rows, DelPersonaje(personajeId))
    case None => 0
    case Some(m) => m + 1
  }

  predicate SortedByOrden(s: seq<Relacion>)
  {
    forall i, j :: 0 <= i < j < |s| ==> s[i].orden <= s[j].orden
  }

  /** Puts `x` into a sorted sequence ahead of every row whose `orden` is not smaller. */
  function InsertByOrden(x: Relacion, s: seq<Relacion>): (r: seq<Relacion>)
    requires SortedByOrden(s)
    ensures SortedByOrden(r)
    ensures multiset(r) == multiset(s) + multiset{x}
  {
    if s == [] || x.orden <= s[0].orden then [x] + s
    else
      var t := InsertByOrden(x, s[1..]);
      assert s == [s[0]] + s[1..];
      CotaInferior(s[0].orden, x, s[1..], t);
      [s[0]] + t
  }

  /** A lower bound of `x` and of every row of `s` bounds every row of a permutation of `s + [x]`. */
  lemma CotaInferior(cota: int, x: Relacion, s: seq<Relacion>, t: seq<Relacion>)
    requires cota <= x.orden && forall k :: 0 <= k < |s| ==> cota <= s[k].orden
    requires multiset(t) == multiset(s) + multiset{x}
    ensures forall k :: 0 <= k < |t| ==> cota <= t[k].orden
  {
    forall k | 0 <= k < |t| ensures cota <= t[k].orden {
      assert t[k] in multiset(t);
      if t[k] != x {
        assert t[k] in multiset(s);
      }
    }
  }

  /** `.order_by(orden.asc()).all()`: the same rows, in non-decreasing `orden`. */
  function SortByOrden(s: seq<Relacion>): (r: seq<Relacion>)
    ensures SortedByOrden(r)
    ensures multiset(r) == multiset(s)
  {
    if s == [] then []
    else
      assert s == [s[0]] + s[1..];
      InsertByOrden(s[0], SortByOrden(s[1..]))
  }

  /** The row references one of the given quests (a NULL reference joins nothing). */
  predicate Joins(r: Relacion, misiones: set<int>)
  {
    r.misionId.Some? && r.misionId.value in misiones
  }

  /** The quest record, with its id, that a reference names: None for NULL or a missing quest. */
  function Referida(misiones: map<int, Mision>, ref: Option<int>): (o: Option<(int, Mision)>)
    ensures o.Some? <==> ref.Some? && ref.value in misiones
    ensures o.Some? ==> o.value.0 == ref.value && o.value.1 == misiones[ref.value]
  {
    if ref.Some? && ref.value in misiones then Some((ref.value, misiones[ref.value])) else None
  }

  /** The inner `join(Mision)`: keeps the rows whose quest exists, in order. */
  function Joined(s: seq<Relacion>, misiones: set<int>): (r: seq<Relacion>)
    ensures forall x :: x in r <==> x in s && Joins(x, misiones)
    ensures |r| <= |s|
    ensures (forall i :: 0 <= i < |s| ==> Joins(s[i], misiones)) ==> r == s
  {
    if s == [] then []
    else (if Joins(s[0], misiones) then [s[0]] else []) + Joined(s[1..], misiones)
  }

  /** The selection keeps each matching row exactly as often as the table holds it. */
  lemma {:induction false} SelectMultiplicidad(rows: seq<Relacion>, f: Filtro)
    ensures forall x :: multiset(Select(rows, f))[x] == if Matches(x, f) then multiset(rows)[x] else 0
  {
    if rows != [] {
      var k := |rows| - 1;
      assert rows == rows[..k] + [rows[k]];
      SelectMultiplicidad(rows[..k], f);
    }
  }

  /** The inner join keeps each joining row exactly as often as its input holds it, and no other row. */
  lemma {:induction false} JoinedMultiplicidad(s: seq<Relacion>, misiones: set<int>)
    ensures forall x :: multiset(Joined(s, misiones))[x] == if Joins(x, misiones) then multiset(s)[x] else 0
  {
    if s != [] {
      assert s == [s[0]] + s[1..];
      JoinedMultiplicidad(s[1..], misiones);
    }
  }

  /** The rows `obtener_misiones_por_personaje` returns the quests of, in order. */
  function ActiveRows(rows: seq<Relacion>, misiones: set<int>, personajeId: int): (s: seq<Relacion>)
    ensures SortedByOrden(s)
    ensures multiset(s) == multiset(Joined(Select(rows, Pendientes(personajeId)), misiones))
    ensures forall x :: x in s <==> x in rows && Matches(x, Pendientes(personajeId)) && Joins(x, misiones)
  {
    var s := SortByOrden(Joined(Select(rows, Pendientes(personajeId)), misiones));
    assert forall x :: x in s <==> x in multiset(s);
    s
  }

  /**
   * What the listing holds, whether or not every row joins: each pending row of the
   * character whose quest exists, exactly as often as the table holds it.
   */
  lemma ListadoMultiplicidad(rows: seq<Relacion>, misiones: set<int>, personajeId: int)
    ensures forall x :: multiset(ActiveRows(rows, misiones, personajeId))[x]
                     == if Matches(x, Pendientes(personajeId)) && Joins(x, misiones) then multiset(rows)[x] else 0
  {
    SelectMultiplicidad(rows, Pendientes(personajeId));
    JoinedMultiplicidad(Select(rows, Pendientes(personajeId)), misiones);
  }

  /** `db.delete(row)` of the row at index i. */
  function DeleteAt(rows: seq<Relacion>, i: nat): (r: seq<Relacion>)
    requires i < |rows|
    ensures |r| == |rows| - 1
    ensures forall j :: 0 <= j < i ==> r[j] == rows[j]
    ensures forall j :: i <= j < |r| ==> r[j] == rows[j + 1]
  {
    rows[..i] + rows[i + 1..]
  }

  /** `relacion.estado = True` on the row at index i. */
  function ResolveAt(rows: seq<Relacion>, i: nat): (r: seq<Relacion>)
    requires i < |rows|
    ensures |r| == |rows| && r[i].estado
    ensures r[i] == rows[i].(estado := true)
    ensures forall j :: 0 <= j < |rows| && j != i ==> r[j] == rows[j]
  {
    rows[i := rows[i].(estado := true)]
  }

  /**
   * What `db.delete(mision)` does to the assignment table: the relationship has no
   * delete cascade, so the rows that reference the quest stay, with the reference cleared.
   */
  function ClearMision(rows: seq<Relacion>, misionId: int): (r: seq<Relacion>)
    ensures |r| == |rows|
    ensures forall j :: 0 <= j < |rows| ==>
      r[j] == if rows[j].misionId == Some(misionId) then rows[j].(misionId := None) else rows[j]
  {
    if rows == [] then []
    else
      var k := |rows| - 1;
      ClearMision(rows[..k], misionId)
        + [if rows[k].misionId == Some(misionId) then rows[k].(misionId := None) else rows[k]]
  }

  /** Counting distributes over concatenation of tables. */
  lemma {:induction false} CountConcat(a: seq<Relacion>, b: seq<Relacion>, f: Filtro)
    ensures Count(a + b, f) == Count(a, f) + Count(b, f)
  {
    if b != [] {
      var k := |b| - 1;
      assert (a + b)[..|a + b| - 1] == a + b[..k];
      CountConcat(a, b[..k], f);
    } else {
      assert a + b == a;
    }
  }

  /** A single row counts one exactly when the filter selects it. */
  lemma CountSingle(x: Relacion, f: Filtro)
    ensures Count([x], f) == if Matches(x, f) then 1 else 0
  {
    assert [x][..0] == [];
  }

  /** Adding a row changes a count by one exactly when the filter selects the row. */
  lemma CountAppend(rows: seq<Relacion>, x: Relacion, f: Filtro)
    ensures Count(rows + [x], f) == Count(rows, f) + (if Matches(x, f) then 1 else 0)
  {
    CountConcat(rows, [x], f);
    CountSingle(x, f);
  }

  /** Deleting a row changes a count by one exactly when the filter selects the row. */
  lemma CountDeleteAt(rows: seq<Relacion>, i: nat, f: Filtro)
    requires i < |rows|
    ensures Count(DeleteAt(rows, i), f) == Count(rows, f) - (if Matches(rows[i], f) then 1 else 0)
  {
    assert rows == rows[..i] + [rows[i]] + rows[i + 1..];
    CountConcat(rows[..i] + [rows[i]], rows[i + 1..], f);
    CountConcat(rows[..i], [rows[i]], f);
    CountConcat(rows[..i], rows[i + 1..], f);
    CountSingle(rows[i], f);
  }

  /** Replacing a row changes a count by what the old and the new row contribute. */
  lemma CountUpdateAt(rows: seq<Relacion>, i: nat, x: Relacion, f: Filtro)
    requires i < |rows|
    ensures Count(rows[i := x], f)
         == Count(rows, f) - (if Matches(rows[i], f) then 1 else 0) + (if Matches(x, f) then 1 else 0)
  {
    assert rows == rows[..i] + [rows[i]] + rows[i + 1..];
    assert rows[i := x] == rows[..i] + [x] + rows[i + 1..];
    CountConcat(rows[..i] + [rows[i]], rows[i + 1..], f);
    CountConcat(rows[..i], [rows[i]], f);
    CountConcat(rows[..i] + [x], rows[i + 1..], f);
    CountConcat(rows[..i], [x], f);
    CountSingle(rows[i], f);
    CountSingle(x, f);
  }
}
