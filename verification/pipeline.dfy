/**
 `_realizar_consulta` of main.py: the six-step consultation against a browser session
 and a challenge solver, both given as oracles, with the exception boundary around it.
 The model returns the outcome together with the calls made, in order.
 */
module Pipeline {
  import opened Optional
  import opened Results
  import opened Classifier

  /** What a call into the browser or the solver does: return a value, or raise an
      exception whose `str(e)` is `error`. */
  datatype Outcome<+T> = Returned(value: T) | Raised(error: string)

  /** The browser session operations the pipeline invokes. */
  datatype Browser = Browser(
    cargarPagina: string -> Outcome<bool>,
    ingresarCedula: string -> Outcome<bool>,
    inyectarSolucion: string -> Outcome<bool>,
    enviarFormulario: Outcome<bool>,
    obtenerResultado: Outcome<string>)

  /** The challenge solver: `resolver_recaptcha(url, sitekey)` gives a token or `None`. */
  datatype Solver = Solver(resolverRecaptcha: (string, string) -> Outcome<Option<string>>)

  /** The page address and site key from the configuration. */
  datatype Config = Config(url: string, siteKey: string)

  /** One call the pipeline makes, with its arguments. */
  datatype Call =
    | CargarPagina(url: string)
    | IngresarCedula(cedula: string)
    | ResolverRecaptcha(url: string, siteKey: string)
    | InyectarSolucion(token: string)
    | EnviarFormulario
    | ObtenerResultado
    | TomarScreenshot(file: string)

  /** The outcome of one consultation and the calls it made, in order. */
  datatype Consulta = Consulta(result: ConsultaResult, calls: seq<Call>)

  const ScreenshotFile := "error_consulta.png"
  const ErrorPrefix := "Error durante la consulta: "

  const MsgCargar := "Error cargando la página de consulta"
  const MsgIngresar := "Error ingresando la cédula"
  const MsgResolver := "Error resolviendo el reCAPTCHA"
  const MsgInyectar := "Error aplicando la solución del captcha"
  const MsgEnviar := "Error enviando el formulario"

  /** Python truthiness of the solver's answer: `None` and the empty token are false. */
  predicate Truthy(token: Option<string>) {
    token.Some? && token.value != ""
  }

  /** A failed step: the outcome names the step; no screenshot is taken. */
  function Stop(calls: seq<Call>, mensaje: string): Consulta {
    Consulta(Make(exito := false, mensaje := mensaje), calls)
  }

  /** The `except Exception` boundary: one screenshot, and the error text in the message. */
  function Abort(calls: seq<Call>, error: string): Consulta {
    Consulta(Make(exito := false, mensaje := ErrorPrefix + error),
             calls + [TomarScreenshot(ScreenshotFile)])
  }

  /** Load, fill, solve, inject, submit, read; the first step that does not succeed
      ends the consultation. */
  function RealizarConsulta(b: Browser, s: Solver, cfg: Config, cedula: string): (c: Consulta)
    ensures Valid(c.result) && (!c.result.exito ==> c.result.esJurado.None?)
    ensures 1 <= |c.calls| <= 7
    ensures c.result.exito ==> |c.calls| == 6 && c.calls[5] == ObtenerResultado
    ensures forall i :: 0 <= i < |c.calls| ==> Faithful(s, cfg, cedula, c.calls[i])
  {
    var c1 := [CargarPagina(cfg.url)];
    match b.cargarPagina(cfg.url)
    case Raised(e) => Abort(c1, e)
    case Returned(false) => Stop(c1, MsgCargar)
    case Returned(true) =>
      var c2 := c1 + [IngresarCedula(cedula)];
      match b.ingresarCedula(cedula)
      case Raised(e) => Abort(c2, e)
      case Returned(false) => Stop(c2, MsgIngresar)
      case Returned(true) =>
        var c3 := c2 + [ResolverRecaptcha(cfg.url, cfg.siteKey)];
        match s.resolverRecaptcha(cfg.url, cfg.siteKey)
        case Raised(e) => Abort(c3, e)
        case Returned(token) =>
          if !Truthy(token) then Stop(c3, MsgResolver) else
          var c4 := c3 + [InyectarSolucion(token.value)];
          match b.inyectarSolucion(token.value)
          case Raised(e) => Abort(c4, e)
          case Returned(false) => Stop(c4, MsgInyectar)
          case Returned(true) =>
            var c5 := c4 + [EnviarFormulario];
            match b.enviarFormulario
            case Raised(e) => Abort(c5, e)
            case Returned(false) => Stop(c5, MsgEnviar)
            case Returned(true) =>
              var c6 := c5 + [ObtenerResultado];
              match b.obtenerResultado
              case Raised(e) => Abort(c6, e)
              case Returned(texto) => Consulta(AnalizarResultado(cedula, texto), c6)
  }

  // The step-machine view the contract of `RealizarConsulta` is stated in.

  /** How a step went, seen from the pipeline. */
  datatype Status = Passed | Refused | Threw(error: string)

  function Judge(o: Outcome<bool>): Status {
    match o
    case Raised(e) => Threw(e)
    case Returned(ok) => if ok then Passed else Refused
  }

  /** How the call went against the given browser and solver. Reading the result cannot
      be refused, only raise; the screenshot is best effort and never raises. */
  function StatusOf(b: Browser, s: Solver, c: Call): Status {
    match c
    case CargarPagina(u) => Judge(b.cargarPagina(u))
    case IngresarCedula(x) => Judge(b.ingresarCedula(x))
    case ResolverRecaptcha(u, k) =>
      (match s.resolverRecaptcha(u, k)
       case Raised(e) => Threw(e)
       case Returned(token) => if Truthy(token) then Passed else Refused)
    case InyectarSolucion(t) => Judge(b.inyectarSolucion(t))
    case EnviarFormulario => Judge(b.enviarFormulario)
    case ObtenerResultado =>
      (match b.obtenerResultado
       case Raised(e) => Threw(e)
       case Returned(_) => Passed)
    case TomarScreenshot(_) => Passed
  }

  /** The position of each step in the pipeline; the screenshot comes after all of them. */
  function Rank(c: Call): nat {
    match c
    case CargarPagina(_) => 0
    case IngresarCedula(_) => 1
    case ResolverRecaptcha(_, _) => 2
    case InyectarSolucion(_) => 3
    case EnviarFormulario => 4
    case ObtenerResultado => 5
    case TomarScreenshot(_) => 6
  }

  /** The message of a step that returned false (the read step and the screenshot
      cannot return false). */
  function FailureMessage(c: Call): string {
    match c
    case CargarPagina(_) => MsgCargar
    case IngresarCedula(_) => MsgIngresar
    case ResolverRecaptcha(_, _) => MsgResolver
    case InyectarSolucion(_) => MsgInyectar
    case EnviarFormulario => MsgEnviar
    case ObtenerResultado => ""
    case TomarScreenshot(_) => ""
  }

  /** The pipeline steps of a call sequence: all but a final screenshot. */
  function Steps(calls: seq<Call>): seq<Call> {
    if |calls| > 0 && calls[|calls| - 1].TomarScreenshot? then calls[..|calls| - 1] else calls
  }

  /** Each step in its place: no step skipped, repeated or out of order. */
  ghost predicate InOrder(steps: seq<Call>) {
    forall i :: 0 <= i < |steps| ==> Rank(steps[i]) == i
  }

  /** Every step before the last one succeeded. */
  ghost predicate PassedBeforeLast(b: Browser, s: Solver, steps: seq<Call>) {
    forall i :: 0 <= i < |steps| - 1 ==> StatusOf(b, s, steps[i]) == Passed
  }

  /** The call carries the arguments the source passes: the configured page and site
      key, the identifier, the token the solver returned, the fixed screenshot name. */
  ghost predicate Faithful(s: Solver, cfg: Config, cedula: string, c: Call) {
    match c
    case CargarPagina(u) => u == cfg.url
    case IngresarCedula(x) => x == cedula
    case ResolverRecaptcha(u, k) => u == cfg.url && k == cfg.siteKey
    case InyectarSolucion(t) =>
      t != "" && s.resolverRecaptcha(cfg.url, cfg.siteKey) == Returned(Some(t))
    case EnviarFormulario => true
    case ObtenerResultado => true
    case TomarScreenshot(f) => f == ScreenshotFile
  }

  /** The consultation, seen as a step machine: it runs the steps in order, all but
      the last of them succeeded, and it stopped at the first one that did not. A step
      that raised ends with one screenshot and the error text; one that returned false
      ends with that step's message; if all six succeeded, the outcome is the reading
      of the text the last one returned. */
  ghost predicate StopsAtFirstFailure(b: Browser, s: Solver, cedula: string, c: Consulta) {
    var steps := Steps(c.calls);
    && 1 <= |steps| <= 6 && InOrder(steps) && PassedBeforeLast(b, s, steps)
    && var last := steps[|steps| - 1];
    && (|steps| < 6 ==> !StatusOf(b, s, last).Passed?)
    && match StatusOf(b, s, last)
       case Threw(e) =>
         c.calls == steps + [TomarScreenshot(ScreenshotFile)]
         && c.result == Make(false, ErrorPrefix + e)
       case Refused =>
         c.calls == steps && c.result == Make(false, FailureMessage(last))
       case Passed =>
         c.calls == steps && b.obtenerResultado.Returned?
         && c.result == AnalizarResultado(cedula, b.obtenerResultado.value)
  }

  /** A step that raised, after steps that succeeded, ends the consultation as the
      exception boundary does. */
  lemma AbortStops(b: Browser, s: Solver, cedula: string, steps: seq<Call>, e: string)
    requires 1 <= |steps| <= 6 && InOrder(steps) && PassedBeforeLast(b, s, steps)
    requires StatusOf(b, s, steps[|steps| - 1]) == Threw(e)
    ensures StopsAtFirstFailure(b, s, cedula, Abort(steps, e))
  {
    assert Steps(steps + [TomarScreenshot(ScreenshotFile)]) == steps;
  }

  /** A step that returned false, after steps that succeeded, ends the consultation with
      its own message. */
  lemma StopStops(b: Browser, s: Solver, cedula: string, steps: seq<Call>)
    requires 1 <= |steps| <= 6 && InOrder(steps) && PassedBeforeLast(b, s, steps)
    requires StatusOf(b, s, steps[|steps| - 1]) == Refused
    ensures StopsAtFirstFailure(b, s, cedula, Stop(steps, FailureMessage(steps[|steps| - 1])))
  {
    assert Rank(steps[|steps| - 1]) == |steps| - 1;
    assert Steps(steps) == steps;
  }

  /** Appending the next step after a step that succeeded keeps the steps in order and
      all but the last of them successful. */
  lemma Extend(b: Browser, s: Solver, steps: seq<Call>, next: Call)
    requires 1 <= |steps| && InOrder(steps) && PassedBeforeLast(b, s, steps)
    requires StatusOf(b, s, steps[|steps| - 1]) == Passed && Rank(next) == |steps|
    ensures InOrder(steps + [next]) && PassedBeforeLast(b, s, steps + [next])
  {
  }

  /** `_realizar_consulta` meets the step-machine description. */
  lemma RealizarConsultaStopsAtFirstFailure(b: Browser, s: Solver, cfg: Config, cedula: string)
    ensures StopsAtFirstFailure(b, s, cedula, RealizarConsulta(b, s, cfg, cedula))
  {
    var c1 := [CargarPagina(cfg.url)];
    match b.cargarPagina(cfg.url)
    case Raised(e) => AbortStops(b, s, cedula, c1, e);
    case Returned(false) => StopStops(b, s, cedula, c1);
    case Returned(true) =>
      var c2 := c1 + [IngresarCedula(cedula)];
      Extend(b, s, c1, IngresarCedula(cedula));
      match b.ingresarCedula(cedula)
      case Raised(e) => AbortStops(b, s, cedula, c2, e);
      case Returned(false) => StopStops(b, s, cedula, c2);
      case Returned(true) =>
        var c3 := c2 + [ResolverRecaptcha(cfg.url, cfg.siteKey)];
        Extend(b, s, c2, ResolverRecaptcha(cfg.url, cfg.siteKey));
        match s.resolverRecaptcha(cfg.url, cfg.siteKey)
        case Raised(e) => AbortStops(b, s, cedula, c3, e);
        case Returned(token) =>
          if !Truthy(token) {
            StopStops(b, s, cedula, c3);
          } else {
            RealizarConsultaAfterToken(b, s, cfg, cedula, c3, token.value);
          }
  }

  /** The second half of the pipeline, once the solver has returned a token. */
  lemma RealizarConsultaAfterToken(b: Browser, s: Solver, cfg: Config, cedula: string,
                                   c3: seq<Call>, token: string)
    requires b.cargarPagina(cfg.url) == Returned(true) && b.ingresarCedula(cedula) == Returned(true)
    requires s.resolverRecaptcha(cfg.url, cfg.siteKey) == Returned(Some(token)) && token != ""
    requires c3 == [CargarPagina(cfg.url), IngresarCedula(cedula), ResolverRecaptcha(cfg.url, cfg.siteKey)]
    requires InOrder(c3) && PassedBeforeLast(b, s, c3)
    ensures StopsAtFirstFailure(b, s, cedula, RealizarConsulta(b, s, cfg, cedula))
  {
    var c4 := c3 + [InyectarSolucion(token)];
    Extend(b, s, c3, InyectarSolucion(token));
    match b.inyectarSolucion(token)
    case Raised(e) =>
      assert RealizarConsulta(b, s, cfg, cedula) == Abort(c4, e);
      AbortStops(b, s, cedula, c4, e);
    case Returned(false) =>
      assert RealizarConsulta(b, s, cfg, cedula) == Stop(c4, MsgInyectar);
      StopStops(b, s, cedula, c4);
    case Returned(true) => RealizarConsultaAfterInjection(b, s, cfg, cedula, c4, token);
  }

  /** The submit step, once the token is in the page. */
  lemma RealizarConsultaAfterInjection(b: Browser, s: Solver, cfg: Config, cedula: string,
                                       c4: seq<Call>, token: string)
    requires b.cargarPagina(cfg.url) == Returned(true) && b.ingresarCedula(cedula) == Returned(true)
    requires s.resolverRecaptcha(cfg.url, cfg.siteKey) == Returned(Some(token)) && token != ""
    requires b.inyectarSolucion(token) == Returned(true)
    requires c4 == [CargarPagina(cfg.url), IngresarCedula(cedula),
                    ResolverRecaptcha(cfg.url, cfg.siteKey), InyectarSolucion(token)]
    requires InOrder(c4) && PassedBeforeLast(b, s, c4)
    ensures StopsAtFirstFailure(b, s, cedula, RealizarConsulta(b, s, cfg, cedula))
  {
    var c5 := c4 + [EnviarFormulario];
    Extend(b, s, c4, EnviarFormulario);
    match b.enviarFormulario
    case Raised(e) =>
      assert RealizarConsulta(b, s, cfg, cedula) == Abort(c5, e);
      AbortStops(b, s, cedula, c5, e);
    case Returned(false) =>
      assert RealizarConsulta(b, s, cfg, cedula) == Stop(c5, MsgEnviar);
      StopStops(b, s, cedula, c5);
    case Returned(true) => RealizarConsultaAfterSubmit(b, s, cfg, cedula, c5, token);
  }

  /** The read step, once the form is submitted. */
  lemma RealizarConsultaAfterSubmit(b: Browser, s: Solver, cfg: Config, cedula: string,
                                    c5: seq<Call>, token: string)
    requires b.cargarPagina(cfg.url) == Returned(true) && b.ingresarCedula(cedula) == Returned(true)
    requires s.resolverRecaptcha(cfg.url, cfg.siteKey) == Returned(Some(token)) && token != ""
    requires b.inyectarSolucion(token) == Returned(true) && b.enviarFormulario == Returned(true)
    requires c5 == [CargarPagina(cfg.url), IngresarCedula(cedula),
                    ResolverRecaptcha(cfg.url, cfg.siteKey), InyectarSolucion(token), EnviarFormulario]
    requires InOrder(c5) && PassedBeforeLast(b, s, c5)
    ensures StopsAtFirstFailure(b, s, cedula, RealizarConsulta(b, s, cfg, cedula))
  {
    var c6 := c5 + [ObtenerResultado];
    Extend(b, s, c5, ObtenerResultado);
    match b.obtenerResultado
    case Raised(e) =>
      assert RealizarConsulta(b, s, cfg, cedula) == Abort(c6, e);
      AbortStops(b, s, cedula, c6, e);
    case Returned(texto) =>
      assert RealizarConsulta(b, s, cfg, cedula) == Consulta(AnalizarResultado(cedula, texto), c6);
      assert Steps(c6) == c6;
  }

  /** The screenshot is taken at most once, as the very last call, and exactly when a
      step raised. */
  lemma RealizarConsultaScreenshot(b: Browser, s: Solver, cfg: Config, cedula: string)
    ensures var c := RealizarConsulta(b, s, cfg, cedula);
      forall i :: 0 <= i < |c.calls| - 1 ==> !c.calls[i].TomarScreenshot?
    ensures var c := RealizarConsulta(b, s, cfg, cedula);
      c.calls[|c.calls| - 1].TomarScreenshot? <==>
        StatusOf(b, s, Steps(c.calls)[|Steps(c.calls)| - 1]).Threw?
  {
    // Not needed for soundness: going through the step-machine description keeps this
    // proof well inside the resource limit.
    RealizarConsultaStopsAtFirstFailure(b, s, cfg, cedula);
  }

  /** The solver answering `None` or an empty token is a failed step: nothing is
      injected, submitted or read, and no screenshot is taken. */
  lemma FalsyTokenStops(b: Browser, s: Solver, cfg: Config, cedula: string)
    requires b.cargarPagina(cfg.url) == Returned(true) && b.ingresarCedula(cedula) == Returned(true)
    requires s.resolverRecaptcha(cfg.url, cfg.siteKey) in {Returned(None), Returned(Some(""))}
    ensures var c := RealizarConsulta(b, s, cfg, cedula);
      && c.result == ConsultaResult(false, MsgResolver, None, None, None)
      && forall i :: 0 <= i < |c.calls| ==> Rank(c.calls[i]) <= 2
  {
  }

  /** A refused identifier entry stops the consultation before the solver is asked. */
  lemma RefusedEntryStops(b: Browser, s: Solver, cfg: Config, cedula: string)
    requires b.cargarPagina(cfg.url) == Returned(true) && b.ingresarCedula(cedula) == Returned(false)
    ensures var c := RealizarConsulta(b, s, cfg, cedula);
      && c.result == ConsultaResult(false, MsgIngresar, None, None, None)
      && c.calls == [CargarPagina(cfg.url), IngresarCedula(cedula)]
  {
  }
}
