/** The `ConsultaResult` record of models/results.py and its `__post_init__` normalisation. */
module Results {
  import opened Optional

  /** One consultation outcome. `exito` says the pipeline reached a determinate reading
      (not that the person is a jury member); `esJurado` is the reading itself. */
  datatype ConsultaResult = ConsultaResult(
    exito: bool,
    mensaje: string,
    esJurado: Option<bool>,
    detalle: Option<string>,
    cedula: Option<string>)

  /** The record invariant `__post_init__` establishes: a successful outcome always
      carries a reading. */
  predicate Valid(r: ConsultaResult) {
    r.exito ==> r.esJurado.Some?
  }

  /** `__post_init__`: a successful outcome without a reading is read as "not a jury member". */
  function PostInit(r: ConsultaResult): (n: ConsultaResult)
    ensures Valid(n)
    ensures r.exito && r.esJurado.None? ==> n.esJurado == Some(false)
    ensures r.esJurado.Some? || !r.exito ==> n.esJurado == r.esJurado
    ensures n.(esJurado := r.esJurado) == r
  {
    if r.esJurado.None? && r.exito then r.(esJurado := Some(false)) else r
  }

  /** The dataclass constructor: the fields as given, with the dataclass defaults, then
      `__post_init__`. */
  function Make(exito: bool, mensaje: string, esJurado: Option<bool> := None,
                detalle: Option<string> := None, cedula: Option<string> := None): (r: ConsultaResult)
    ensures Valid(r)
    ensures r.exito == exito && r.mensaje == mensaje && r.detalle == detalle && r.cedula == cedula
    ensures esJurado.Some? ==> r.esJurado == esJurado
    ensures !exito ==> r.esJurado == esJurado
    ensures exito && esJurado.None? ==> r.esJurado == Some(false)
  {
    PostInit(ConsultaResult(exito, mensaje, esJurado, detalle, cedula))
  }

  /** Normalising an already normalised record changes nothing. */
  lemma PostInitIdempotent(r: ConsultaResult)
    ensures PostInit(PostInit(r)) == PostInit(r)
  {
  }

  /** The records `__post_init__` leaves alone are exactly the ones that already keep
      the invariant. */
  lemma PostInitFixesExactlyValid(r: ConsultaResult)
    ensures PostInit(r) == r <==> Valid(r)
  {
  }
}
