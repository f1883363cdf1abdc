# Quest assignments of trabajo1, in Dafny

This project models the core of `main.py` in the trabajo1 web service. The service keeps game characters (`personajes`), quests (`misiones`), and an assignment table (`misiones_personaje`). Each row of that table links one character to one quest. It carries an order key `orden` and a flag `estado`: `false` means the row is pending, `true` means it is resolved. When a quest is deleted, the rows that referenced it keep existing with the quest reference cleared (NULL).

Over that table the service offers:

- a per-character FIFO queue, `ColaMisiones`, with enqueue, dequeue, first, is_empty and size;
- a small lifecycle per row: absent → pending → resolved. Accepting a quest creates a pending row. Completing it resolves the earliest pending row and credits the quest's experience. Dequeuing deletes a pending row and grants nothing;
- a listing of a character's active quests;
- create, read, update and delete of quests, and creation of characters.

Modules, one per layer of the program:

- `Wrappers` (`wrappers.dfy`): `Option` and `Result`.
- `Errores` (`errores.dfy`): the HTTP errors the handlers raise, with their status codes.
- `Tabla` (`tabla.dfy`): the rows as values, and the queries the handlers run as pure functions. `filter_by` becomes a `Filtro`. Then `count()`, `order_by(orden.asc()).first()`, `order_by(orden.desc()).first()`, `order_by(...).all()` and the inner `join(Mision)` each become a function. The three row updates, delete, resolve and clearing a deleted quest's references, are functions too.
- `Almacen` (`almacen.dfy`): class `Database`. It holds the two entity maps, the sequence of assignment rows and the identity counters. Each of its methods is one add, delete or update followed by commit.
- `Cola` (`cola.dfy`): class `ColaMisiones`, with its database and character as constants. The read-only queries are functions; `Enqueue` and `Dequeue` are methods.
- `Api` (`api.dfy`): the request handlers, each one atomic state transition of the database.
- `Propiedades` (`propiedades.dfy`): lemmas that relate several operations. They cover FIFO order, what dequeue and complete consume, the one-pending-row-per-pair invariant, and the listing against `size`.
- `Escenarios` (`escenarios.dfy`): client runs on a fresh database, proved from the handlers' contracts alone.

## Model

| member | source | states |
|---|---|---|
| `Errores.Error.Status` | main.py:92-253 | A 500 is exactly the error caught by the listing's `except`. The not-found errors (character, quest, empty queue) are exactly the 404s. The accept and complete refusals are exactly the 400s. |
| `Errores.Error.Detalle` | main.py:92-253 | Exactly the 500s have a detail that starts with "Error interno: ". The rest of a 500's detail is the detail of the error it caught. |
| `Errores.DetalleDistingue` | main.py:102-104 | Two errors with the same detail text are the same error, however deeply a 500 wraps its cause. |
| `Tabla.Count` | main.py:256-260 | `count()` of a `filter_by` never exceeds the table size. It is zero exactly when no row matches the filter. |
| `Tabla.Select` | main.py:94-97 | Holds exactly the rows the filter matches, and as many of them as `count()` reports. |
| `Tabla.FirstByOrden` | main.py:233-237 | `order_by(orden.asc()).first()` is None exactly when nothing matches. Otherwise it is a matching row whose `orden` is minimal among matching rows, and the earliest such row in table order. |
| `Tabla.MaxOrden` | main.py:219-221 | `order_by(orden.desc()).first()` is None exactly when nothing matches. Otherwise it is the `orden` of a matching row, and no matching row has a larger one. |
| `Tabla.NextOrden` | main.py:219-222 | The enqueue order is larger than the `orden` of every row of the character, resolved rows included. It is 0 when the character has no row, and otherwise exactly one more than some row's `orden`. |
| `Tabla.InsertByOrden` | main.py:97 | Inserting a row into a sequence sorted by `orden` keeps it sorted and adds exactly that row. |
| `Tabla.SortByOrden` | main.py:97 | `order_by(orden.asc()).all()` returns a permutation of the rows, in non-decreasing `orden`. |
| `Tabla.Joined` | main.py:94 | The inner join with `misiones` keeps exactly the rows whose quest reference is set and names an existing quest. It is never longer than its input, and it is the identity when every row joins. |
| `Tabla.SelectMultiplicidad` | main.py:94-97 | The selection holds each row that matches the filter exactly as often as the table does, and no other row. |
| `Tabla.JoinedMultiplicidad` | main.py:94 | The inner join holds each joining row exactly as often as its input does, and no other row. |
| `Tabla.ActiveRows` | main.py:94-99 | The listed rows are exactly the character's pending rows whose quest exists, as a multiset, in non-decreasing `orden`. |
| `Tabla.ListadoMultiplicidad` | main.py:94-99 | Whether or not every row joins, the listed rows are each pending row of the character whose quest exists, exactly as often as the table holds it. |
| `Tabla.DeleteAt` | main.py:242 | Deleting a row shortens the table by one and keeps every other row in its place. |
| `Tabla.ResolveAt` | main.py:203 | Resolving a row sets `estado` on that row only. Its other columns and every other row are unchanged. |
| `Tabla.ClearMision` | main.py:136-137 | Deleting a quest keeps every row in place. Rows that referenced it lose the reference; every other row is unchanged. |
| `Tabla.CountConcat` | main.py:256-260 | The count over two tables joined end to end is the sum of their counts. |
| `Tabla.CountDeleteAt` | main.py:242 | Deleting a row lowers a filter's count by one exactly when the filter matches that row. |
| `Tabla.CountUpdateAt` | main.py:203 | Updating a row changes a filter's count by the difference between the old and the new row's membership. |
| `Almacen.Database.constructor` | main.py:44 | A new database has no quests, no characters and no assignment rows, and its invariant holds. |
| `Almacen.Database.AddMision` | main.py:115-118 | Adds exactly one quest, under an id not in use. Nothing else changes. |
| `Almacen.Database.AddPersonaje` | main.py:146-149 | Adds exactly one character, under an id not in use. Nothing else changes. |
| `Almacen.Database.AddRelacion` | main.py:173-179 | Appends exactly one pending row with the given character, quest and order, under a row id no existing row has. |
| `Almacen.Database.DeleteRelacion` | main.py:242-243 | Removes the row at the given index and nothing else. |
| `Almacen.Database.ResolveRelacion` | main.py:202-205 | In one commit, resolves the given row and adds `delta` to that row's character's experience. Nothing else changes. |
| `Almacen.Database.SetDescripcion` | main.py:126-128 | Replaces the quest's description only. |
| `Almacen.Database.DeleteMision` | main.py:136-137 | Removes the quest. The assignment rows that referenced it stay, with the reference cleared. Characters and other rows are unchanged. |
| `Cola.ColaMisiones.constructor` | main.py:214-216 | The queue is bound to the given database and character. |
| `Cola.ColaMisiones.Enqueue` | main.py:218-231 | Appends one pending row for the quest with order `NextOrden`. There is no existence or duplicate check. Quests and characters are unchanged. |
| `Cola.ColaMisiones.Dequeue` | main.py:233-244 | On an empty queue it fails with `ColaVacia` and changes nothing. Otherwise it deletes exactly one row, a pending row of the character with minimal `orden`, and returns that row's quest reference, None if that quest was deleted. No experience is granted. |
| `Cola.ColaMisiones.First` | main.py:246-254 | Fails with `ColaVacia` exactly when the character has no pending row. Otherwise it takes a pending row with minimal `orden` and returns the stored quest that row references, with its id. It returns None when the reference is NULL or names no stored quest. It reads the database only. |
| `Cola.ColaMisiones.IsEmpty` | main.py:256-261 | True exactly when every row of the table belongs to another character or is resolved. |
| `Cola.ColaMisiones.Size` | main.py:263-268 | The number of the character's pending rows. It is 0 exactly when `IsEmpty`. |
| `Api.ObtenerMisionesPorPersonaje` | main.py:87-104 | A missing character yields a 500 wrapping the 404. Otherwise the result lists, for each row of `ActiveRows` in its order, the row's quest id with the stored quest. |
| `Api.ObtenerMision` | main.py:106-111 | Returns the stored quest when the id exists, and 404 otherwise. |
| `Api.CrearMision` | main.py:113-119 | Stores a new quest with exactly the given name, description and experience, under a fresh id. |
| `Api.ActualizarMision` | main.py:121-129 | When the quest exists, only its description changes and the updated quest is returned. Otherwise it fails with 404 and changes nothing. |
| `Api.EliminarMision` | main.py:131-138 | When the quest exists, it is removed; every assignment row is kept, and those that referenced it lose the reference. Otherwise it fails with 404 and changes nothing. |
| `Api.CrearPersonaje` | main.py:144-150 | A new character, under a fresh id, with experience 0. |
| `Api.AceptarMision` | main.py:152-181 | Checks in order: missing character (404), missing quest (404), a pending row for the pair (400). Succeeds exactly when none applies. Then it appends one pending row with the supplied order. On an error no row changes. |
| `Api.CompletarMision` | main.py:183-210 | Checks in order: missing quest (404), missing character (404), no pending row for the pair (400). The "already completed" branch is proved unreachable. On success it resolves a minimal-`orden` pending row of the pair and adds exactly the quest's experience to the character. It returns the gain and the new total. Nothing else changes. |
| `Propiedades.EnqueueGoesLast` | main.py:218-231 | An enqueued row is pending, so the queue grows by one. It goes to the back: on a non-empty queue the rows that can be the head (pending rows of minimal `orden`) are exactly those before the enqueue. On an empty queue the new row is the only possible head. |
| `Propiedades.FifoDosMisiones` | main.py:218-254 | Enqueue q1 and then q2 on an empty queue, in any table. q1's row is the only possible head. After it is dequeued, q2's row is the only possible head. |
| `Propiedades.DequeueRemovesHead` | main.py:233-244 | Dequeue removes exactly the head row, as a multiset. The character's queue shrinks by one. Counts of resolved rows and of other characters' rows are unchanged. |
| `Propiedades.CompletarConsumePendiente` | main.py:187-203 | Completing lowers the pair's and the character's pending counts by one. It keeps the character's total row count and its next enqueue order. |
| `Propiedades.SameOrdersSameNext` | main.py:219-222 | Tables that agree on every row's character and order give the same next enqueue order. |
| `Propiedades.AceptarDosVeces` | main.py:162-169 | After a pending row for a pair is added, the pair has a pending row, so a second accept is refused with 400. |
| `Propiedades.UnaPendienteCuentaUno` | main.py:162-169 | Under the one-pending-row-per-pair invariant, a pair has at most one pending row. |
| `Propiedades.UnaPendienteTrasAceptar` | main.py:162-179 | Accept, which appends only when the pair has no pending row, keeps the one-pending-row-per-pair invariant, on any table including the empty one. |
| `Propiedades.UnaPendienteTrasResolver` | main.py:203-205 | Resolving any row, as complete does, keeps the invariant. |
| `Propiedades.UnaPendienteTrasBorrar` | main.py:242-243 | Deleting any row, as dequeue does, keeps the invariant. |
| `Propiedades.UnaPendienteTrasEliminarMision` | main.py:136-137 | Deleting a quest, which clears the references to it, keeps the invariant. |
| `Propiedades.EnqueueDuplica` | main.py:218-231 | Enqueue can add a second pending row for a pair and so break the invariant. |
| `Propiedades.CompletarNoRepetible` | main.py:183-203 | Under the invariant, after a completion the pair has no pending row, so a second completion fails with 400. |
| `Propiedades.ResueltasPermanecen` | main.py:199-203 | Resolved is final. Resolving or deleting a pending row never removes a resolved row. |
| `Propiedades.ListadoIgualTamano` | main.py:94-99 | While every pending row of the character still references an existing quest, the listing is exactly as long as `size`. |
| `Propiedades.EliminarMisionConservaColas` | main.py:136-137 | Deleting a quest leaves every queue's size unchanged, and afterwards no row references that quest. |
| `Propiedades.ListadoOmiteMisionBorrada` | main.py:94-99 | In any table, a pending row whose quest exists is listed. Once that quest is deleted, the row stays in the table with its reference cleared, the character's `size` is unchanged, and the row is not listed. |
| `Escenarios.AriaAceptaDragon` | main.py:144-181 | On a fresh database, Aria (experience 0) accepts "Slay Dragon" (worth 50). The result is one pending row with order 0. |
| `Escenarios.EscenarioAriaAcepta` | main.py:152-181 | After the accept, the listing is exactly the quest "Slay Dragon" with its id, and a second accept fails with 400. |
| `Escenarios.EscenarioAriaCompleta` | main.py:183-210 | Completing earns 50 for a total of 50. The listing is then empty, and completing again fails with 400. |
| `Escenarios.Atender` | main.py:233-254 | When the queue's head is a single row referencing a stored quest, `first` returns that quest and `dequeue` then returns its id and removes exactly the head row. |
| `Escenarios.EscenarioCola` | main.py:218-254 | Enqueue Q1 then Q2: `first` is the quest Q1, `dequeue` returns Q1's id, then `first` is Q2. A second dequeue returns Q2's id, and the queue is then empty. |

## Behaviour as the code has it

- The 404 for a missing character in the listing (main.py:92) is raised inside the `try`. The `except Exception` at main.py:102 catches it and re-raises it as a 500 "Error interno". The model returns `ErrorInterno(PersonajeNoEncontrado)`.
- The relationship between quests and assignment rows (main.py:21) has no delete cascade. Deleting a quest therefore keeps its assignment rows and sets their `mision_id` to NULL, which is the ORM's default for such a relationship (`ClearMision`).
- The listing joins the rows with `misiones`, but `size` counts rows without a join. Two kinds of pending row still count in `size` but do not appear in the listing. The first kind is a row whose quest was deleted, since its reference is then NULL. The second is a row that `enqueue` created for a quest id that never existed: `enqueue` does not look the quest up, and SQLite does not enforce the foreign key. The two agree only while every pending row of the character references a stored quest (`ListadoIgualTamano`, `EliminarMisionConservaColas`, `ListadoOmiteMisionBorrada`).
- `dequeue` and `first` still succeed on a head row whose reference is NULL or names no stored quest. `first` returns None as the quest. `dequeue` returns the reference as stored: None after a quest delete, or the missing id.
- Enqueue then dequeue returns the just-enqueued quest only on an empty queue. On a non-empty queue the enqueued row goes to the back, and dequeue returns the old head (`EnqueueGoesLast`).
- A second completion of the same pair fails only while the pair had a single pending row. Enqueue does not check for duplicates and can create a second pending row (`EnqueueDuplica`, `CompletarNoRepetible`).
- Accept takes the caller's `orden` (0 by default), so an accepted row can go ahead of rows already queued. Only enqueue computes the next order.
- `completar_mision` checks for a missing quest before a missing character. `aceptar_mision` checks in the opposite order.

## Left out

- HTTP routing, `Depends(get_db)`, the Pydantic request and response classes and `orm_mode` (main.py:46-85, 271-294): handlers take their arguments directly and return `Result` values.
- The engine, session, `commit` and `refresh` mechanics (main.py:8-11, 44): each handler is one atomic transition of `Database`.
- database.py is not part of this model: it only creates the SQLite schema.
- The `fecha_creacion` timestamp (main.py:19): it is a clock read.
- Races between concurrent requests: the check-then-insert of accept and the order computation of enqueue are modelled as atomic.
- `print` logging and the `uvicorn` startup (main.py:103, 297-299).
- `obtener_personajes` (main.py:140-142): it returns the whole `personajes` table, which the model holds as the `personajes` map. There is nothing further to state.
- Tie-break among pending rows of equal `orden`: the store leaves it unspecified. `FirstByOrden` picks the earliest row in table order, and `SortByOrden` fixes one order among equal rows, which the listing's contract inherits. The queue and completion contracts (`Dequeue`, `First`, `CompletarMision`) say only "a row of minimal order".
- Identities come from counters and are never reused. SQLite may reuse the id of a deleted highest row.
- `orden` and experience are unbounded integers. The 64-bit limit of SQLite integers, and the length limits of `String(50)` and `String(30)`, which SQLite does not enforce anyway, are not modelled.
- Store failures other than the modelled errors, for example an exception inside the listing's query, which would also become a 500, are not modelled.
- Errores.Error.Detalle: the 500 detail is modelled as "Error interno: " followed by the cause's detail, an idealisation of the two texts the framework produces. Where `HTTPException` defines `__str__`, the cause's text is preceded by its status code ("Error interno: 404: Personaje no encontrado"). In older releases the text of an exception built from keyword arguments is empty ("Error interno: ").
