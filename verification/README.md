# Consulta de jurados — a Dafny model of the decision logic

The application asks an operator for a Colombian identity number (*cédula*). It then
drives a browser session through the public consultation form of the national
registry, gets a challenge token from a remote solver, and reports whether the person
has been designated as a polling-station juror (*jurado de votación*). This project
models the parts of it that decide things:

- `validar_cedula` (module `Validators`). Strip the input, then apply the ordered
  checks for empty, only digits, and six to ten digits. Python's `str.strip`,
  `str.isdigit`, `str.lower`/`str.upper` and the substring test `in` are modelled in
  module `Text`.
- `ConsultaResult` and its `__post_init__` normalisation (module `Results`).
- `_analizar_resultado` (module `Classifier`). This is the case-insensitive reading
  of the server's reply, with its phrase precedence.
- `_realizar_consulta` (module `Pipeline`). This runs the six steps: load, fill,
  solve, inject, submit, read. The browser session and the challenge solver are
  oracles: each call returns a value or raises. The model returns the outcome
  together with the calls it made, so "no later step is invoked" is a property of
  the call list.
- `_solicitar_cedula` and `_preguntar_continuar` (module `Prompts`). The operator is
  the sequence of values `solicitar_entrada` returns, one per call. Once that
  sequence is used up, every further call meets end of input, and
  `solicitar_entrada` reports that as "".

The contract of `_realizar_consulta` is stated as a step machine. The steps run in
pipeline order. Every step before the last one succeeded. A step that raised leaves
exactly one screenshot, named `error_consulta.png`, and the message
`Error durante la consulta: <error>`. A step that returned false, or a solver that
gave no token or an empty one, leaves that step's fixed message. Six successful steps
give exactly the classifier's reading of the text read.

## Model

| member | source | states |
|---|---|---|
| `Text.Strip` | utils/validators.py:15 | The result is a piece of the input that neither starts nor ends with whitespace (Python's `isspace` set), with only whitespace before and after it in the input |
| `Text.StripUnique` | utils/validators.py:15 | Any piece of the input that meets that description is the stripped string, so stripping is fully determined by it |
| `Text.StripPadding` | utils/validators.py:15 | Adding whitespace on either side of a string does not change its stripped form |
| `Text.StripIdempotent` | utils/validators.py:15 | Stripping a stripped string changes nothing |
| `Text.ContainsIff` | main.py:159 | The left-to-right search reports the phrase exactly when it occurs at some position of the text |
| `Validators.ValidarCedula` | utils/validators.py:5-26 | Valid exactly when the stripped input is six to ten ASCII digits, and then the message is empty. An empty stripped input gives the "vacía" message; a stripped input with any non-digit gives the "solo números" message whatever its length; an all-digit stripped input of the wrong length gives the "entre 6 y 10 dígitos" message |
| `Validators.ValidarIgnoresSurroundingSpace` | utils/validators.py:15 | Validating the input with whitespace added around it, or validating its stripped form, gives the same verdict and message as validating the input |
| `Validators.ValidarReportsFirstBrokenRule` | utils/validators.py:17-24 | The rules are checked in the order empty, digits, length: the "vacía" message is reported exactly when the stripped input is empty, the "solo números" message exactly when it is non-empty but not all digits, the length message exactly when it is all digits of the wrong length; an input is invalid exactly when its message is one of the three |
| `Validators.ValidarAcceptsSixDigits` | utils/validators.py:15-26 | "123456" is valid with an empty message, also when padded as " 123456\n" |
| `Validators.ValidarReportsDigitsBeforeLength` | utils/validators.py:20-24 | "12a" and "12a456" are reported for the digit rule, although "12a" also has the wrong length |
| `Validators.ValidarReportsLength` | utils/validators.py:23-24 | Five and eleven digits are reported for their length |
| `Validators.ValidarReportsEmpty` | utils/validators.py:15-18 | Every empty or whitespace-only input is reported as empty |
| `Results.PostInit` | models/results.py:16-19 | The record afterwards keeps the invariant "success implies a reading". A success without a reading is read as not a jury member. A supplied reading, and any failure's reading (including an absent one), are kept. No other field changes |
| `Results.Make` | models/results.py:7-19 | Construction with the dataclass defaults keeps every given field, fills in `es_jurado = False` only for a success without a reading, and yields a valid record |
| `Results.PostInitIdempotent` | models/results.py:18-19 | Normalising twice is normalising once |
| `Results.PostInitFixesExactlyValid` | models/results.py:18-19 | Normalisation leaves a record unchanged exactly when it already keeps the invariant |
| `Classifier.AnalizarResultado` | main.py:149-187 | Every reading keeps the record invariant. A failure carries neither a reading nor the identifier. A success echoes the identifier and carries the non-empty raw text as detail |
| `Classifier.NegativeMentionsPositive` | main.py:159-167 | Every text that mentions "no ha sido designado" also mentions "ha sido designado", which is why the order of the two tests matters |
| `Classifier.AnalizarBranches` | main.py:149-187 | The exact record of each branch, in terms of which phrases occur in the lower-cased text: empty text fails with "No se recibió respuesta"; a negative phrase gives "not a juror"; the positive phrase alone gives "juror"; the "por favor digite" echo, without verdict phrases, fails with the captcha detail; anything else is an acknowledged reply with the raw text and reading false |
| `Classifier.NegativePhraseWins` | main.py:157-167 | A text with "no ha sido designado" mentions the positive phrase too, yet reads as a success and not a juror |
| `Classifier.AnalizarSummary` | main.py:149-187 | The reading is "juror" exactly when the positive phrase occurs and neither negative phrase does; the outcome fails exactly on empty text or on the "por favor digite" echo without verdict phrases |
| `Classifier.NoFiguraLowered` | main.py:159-166 | A text reading "la cédula no figura en la base", in any ASCII letter case, gives the full not-a-juror record |
| `Classifier.DesignadoLowered` | main.py:167-174 | A text reading "usted ha sido designado jurado", in any letter case, gives the full juror record |
| `Classifier.PorFavorLowered` | main.py:175-180 | A text reading "por favor digite el captcha", in any letter case, gives the failed record with the captcha detail and no reading or identifier |
| `Classifier.UnrelatedLowered` | main.py:181-187 | A text reading "some unrelated server text" gives the acknowledged reply, with reading false and the raw text verbatim as detail |
| `Classifier.UpperCaseDesignadoExample` | main.py:157-174 | "Usted HA SIDO DESIGNADO jurado" reads as a juror: letter case does not hide the phrase |
| `Pipeline.RealizarConsulta` | main.py:91-147 | The outcome keeps the record invariant, and a failure never carries a reading. Between one and seven calls are made, and a success comes after exactly six, the last of them the read. Every call carries the arguments the source passes: the configured page and site key, the identifier, the token the solver returned, the fixed screenshot name |
| `Pipeline.AbortStops` | main.py:142-147 | After steps that succeeded, a step that raised ends with one screenshot and the prefixed error text |
| `Pipeline.StopStops` | main.py:98-135 | After steps that succeeded, a step that returned false ends without a screenshot and with that step's message |
| `Pipeline.RealizarConsultaStopsAtFirstFailure` | main.py:97-147 | The steps run in pipeline order; every step before the last one succeeded; fewer than six steps means the last one did not succeed. Raised means one screenshot and `Error durante la consulta: <error>`; refused means the step's message; all six succeeded means the classifier's reading of the text read |
| `Pipeline.RealizarConsultaScreenshot` | main.py:142-147 | A screenshot is never taken before the last call, and the last call is a screenshot exactly when the last step raised |
| `Pipeline.FalsyTokenStops` | main.py:112-121 | A solver answer of `None` or of an empty token fails with "Error resolviendo el reCAPTCHA": nothing is injected, submitted or read |
| `Pipeline.RefusedEntryStops` | main.py:105-110 | A refused identifier entry fails with "Error ingresando la cédula", and only load and fill were called |
| `Prompts.Confirma` | utils/console_utils.py:63-64 | `confirmar_accion`: an answer confirms only if it is one to three characters starting with "s" or "y" in either case, so "" never confirms |
| `Prompts.ConfirmaAnswers` | utils/console_utils.py:63-64 | "s", "Si", "y" and "yEs" confirm; "", "n", "No", "sí" and "ok" do not |
| `Prompts.Ronda` | main.py:69-86 | One round ends the way the source decides it on the values it reads: "" cancels, an invalid entry is rejected with the validator's message, a valid entry is accepted or declined by the confirmation answer. It reads the operator's values in order, and reads the confirmation only for a valid entry |
| `Prompts.SolicitarCedula` | main.py:63-89 | At most three rounds, each ending as the source decides. Every round but the last uses up an attempt, and the rounds read exactly the operator's values in order. An identifier is returned exactly when the last round accepted it, and it then passes the validator. `None` means a cancel, or three used-up attempts. An empty first entry gives `None` after one round |
| `Prompts.PreguntarContinuarAsWritten` | main.py:218-230 | The question returns exactly when some answer is in the yes list or the no list, and the first such answer decides, yes exactly for the yes list |
| `Prompts.EndOfInputNeverDecides` | main.py:220-230 | When every read meets end of input, so that every value is "", the question as written never returns |
| `Prompts.PreguntarContinuar` | main.py:218-230 | The corrected question always returns; it says yes exactly when the first answer it acts on, a listed answer or "", is a yes answer |
| `Prompts.PreguntarContinuarAgrees` | main.py:218-230 | Over answers without "", the corrected question returns what the written one returns whenever that one returns, and says no where the written one never returns |

## Left out

- `ejecutar`, `_mostrar_resultado`, `_verificar_dependencias` and `main`: the outer loop, printing, dependency checks, process exit and browser teardown. These are process control and I/O.
- The browser session and the challenge solver (services/selenium_service.py, services/captcha_solver.py) are oracles. Their waits, scripts, remote calls, balance checks and clocks are not modelled. The wrappers there catch most exceptions themselves and return false, `None` or "". The model lets every step raise, which covers what they actually let through, for example a non-timeout error from `obtener_resultado`.
- The screenshot is modelled as a call that always succeeds. The source's `tomar_screenshot` catches its own exceptions.
- Only `Exception` is caught in `_realizar_consulta`. A `BaseException` such as `KeyboardInterrupt` passes through it, and the model has no such outcome.
- Console I/O: `solicitar_entrada` of utils/console_utils.py is modelled through the sequence of values it returns: stripped text, or "" for end of input and for an interrupted prompt. The retry inside `solicitar_entrada` on an empty line is not visible at this level.
- config/settings.py: the page address and the site key are opaque parameters (`Pipeline.Config`); the timeouts are not modelled.
- Text.IsDigit: accepts only the ASCII digits. Python's `str.isdigit` also accepts other Unicode digits (superscripts, other scripts), so the model rejects some identifiers the source accepts.
- Text.Lower: lowers only the ASCII letters, where Python's `str.lower` is full Unicode. The classifier's outcome is not affected: the only non-ASCII characters whose lower case contains ASCII letters are the Kelvin sign (to "k") and the dotted capital I (to "i" and a combining dot), none of the four phrases contains "k", and every "i" in them is followed by an ASCII letter, so each phrase occurs in either lowered text exactly when it occurs in the other.
- Text.Upper: raises only the ASCII letters. Python's `str.upper` can turn non-ASCII answers such as "sı" into "SI".
- `__post_init__` enforces only "success implies a reading", and the model follows the code in `Results.PostInit`. Every record the classifier and the pipeline build also has no reading on failure, as `Classifier.AnalizarResultado` and `Pipeline.RealizarConsulta` state.
- An empty token fails the solve step too (Python truthiness at main.py:117), and the model follows the code.

## Findings

| source | as written | input that shows it | evidently intended | confidence | as-written member | corrected member |
|---|---|---|---|---|---|---|
| main.py:218-230 | The continue question loops until an answer is in the yes or the no list. `solicitar_entrada` reports end of input, and an interrupted prompt, as "", which is in neither list | Standard input closed or used up (for example piped input): every read returns "" and the loop never ends. Ctrl-C at that prompt asks again instead of leaving | "" ends the dialogue as "no", the way `_solicitar_cedula` reads "" as a cancellation | high, not executed | `Prompts.EndOfInputNeverDecides` | `Prompts.PreguntarContinuar` |
