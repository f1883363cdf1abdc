/** The HTTP errors the handlers of main.py raise, with their status codes and details. */
module Errores {

  datatype Error =
    | PersonajeNoEncontrado         // 404 "Personaje no encontrado"
    | MisionNoEncontrada            // 404 "Misión no encontrada"
    | MisionYaAceptada              // 400 on a second accept of a pending pair
    | MisionNoAsignada              // 400 when no pending row exists for the pair
    | MisionYaCompletada            // 400, the defensive branch of completar_mision
    | ColaVacia                     // 404 "La cola está vacía"
    | ErrorInterno(causa: Error)    // 500, anything caught by the listing's `except Exception`
  {
    /** The HTTP status code the error is raised with. */
    function Status(): (code: int)
      ensures code == 500 <==> ErrorInterno?
      ensures code == 404 <==> (PersonajeNoEncontrado? || MisionNoEncontrada? || ColaVacia?)
      ensures code == 400 <==> (MisionYaAceptada? || MisionNoAsignada? || MisionYaCompletada?)
    {
      match this
      case PersonajeNoEncontrado => 404
      case MisionNoEncontrada => 404
      case ColaVacia => 404
      case MisionYaAceptada => 400
      case MisionNoAsignada => 400
      case MisionYaCompletada => 400
      case ErrorInterno(_) => 500
    }

    /**
     * The `detail` text of the raised exception: exactly the 500s start with
     * "Error interno: ", followed by the detail of the error they caught.
     */
    function Detalle(): (d: string)
      ensures ErrorInterno? <==> "Error interno: " <= d
      ensures ErrorInterno? ==> d[15..] == causa.Detalle()
    {
      match this
      case PersonajeNoEncontrado =>
        assert "Personaje no encontrado"[0] == 'P';
        "Personaje no encontrado"
      case MisionNoEncontrada =>
        assert "Misión no encontrada"[0] == 'M';
        "Misión no encontrada"
      case ColaVacia =>
        assert "La cola está vacía"[0] == 'L';
        "La cola está vacía"
      case MisionYaAceptada =>
        assert "La misión ya fue aceptada por este personaje"[0] == 'L';
        "La misión ya fue aceptada por este personaje"
      case MisionNoAsignada =>
        assert "El personaje no tiene asignada esta misión"[1] == 'l';
        "El personaje no tiene asignada esta misión"
      case MisionYaCompletada =>
        assert "La misión ya fue completada para este personaje"[0] == 'L';
        "La misión ya fue completada para este personaje"
      case ErrorInterno(causa) => "Error interno: " + causa.Detalle()
    }
  }

  /** The detail text tells every error apart, however deeply a 500 wraps its cause. */
  lemma {:induction false} DetalleDistingue(a: Error, b: Error)
    ensures a.Detalle() == b.Detalle() ==> a == b
  {
    if a.Detalle() == b.Detalle() && a.ErrorInterno? && b.ErrorInterno? {
      assert a.causa.Detalle() == a.Detalle()[15..] == b.causa.Detalle();
      DetalleDistingue(a.causa, b.causa);
    }
  }
}
