# English-Morphology-Tutor: the request pipeline, in Dafny

The tutor is a small Flask backend that forwards a student's verb (and, in the
challenge phase, their conjugation attempt) to a language model, recovers the JSON
verdict embedded in the model's reply, logs one row per successfully processed
request to the research file `datos_recoleccion_tesis.csv`, and returns the verdict. This project models
the part the backend computes itself, all of it in `app.py`:

- `Extraction` — the brace-slice recovery of the verdict: Python's `find('{')` and
  `rfind('}') + 1`, the failure when either brace is missing, and the half-open
  slice with Python's semantics (empty when the last `}` precedes the first `{`).
- `Normalize` — `strip().lower()` applied to the verb and the attempt.
- `Prompts` — the phase labels `Consulta_Andamiaje` and `Reto_<tense>`, the default
  tense `pasado simple`, and the two task prompts built by concatenation.
- `Record` — the outcome label (`Acierto` / `Error` / `Consulta`, by identity tests
  on the booleans) and the seven-column row.
- `Log` — the log file as an object (`InteractionLog`, fields `present` and `rows`)
  whose `Append` writes the header only when the file did not exist, then the row;
  the pure functions `AfterAppend` / `AppendAll` specify it.
- `Pipeline` — `procesar_y_guardar` as a pure function `Process` plus the method
  `ProcessAndSave` that performs the append, and the two handlers
  `consultar_fase1` / `validar_reto` as methods `ConsultPhase1` / `ValidateChallenge`.
- `Json` — the parsed values (`JNull | JBool | JString | JOther`), the object as a
  map, and the result type.

The model call is a parameter `generate: string -> Option<string>` (`None` when the
call raised, which gives the 429 payload); `json.loads` is a parameter
`parse: string -> Result<JObject>`; the timestamp `datetime.now().strftime(...)`
is a parameter string.

Three details are kept exactly as the code has them:
- a challenge request without `intento` logs the empty attempt with length 0, not
  the text `N/A` (the sentinel is only the default of `procesar_y_guardar`, used by
  the query handler);
- the tense is used as sent, neither trimmed nor lower-cased, and defaults to
  `pasado simple` only when the key is absent (an empty tense gives the label `Reto_`);
- the category column is `N/A` only when `tipo_algoritmo` is absent; a present
  `null` is copied as the JSON value.

## Model

| member | source | states |
|---|---|---|
| `Extraction.Find` | app.py:108 | -1 exactly when the character is absent; otherwise an index holding it with no earlier occurrence |
| `Extraction.RFind` | app.py:109 | -1 exactly when the character is absent; otherwise an index holding it with no later occurrence |
| `Extraction.Slice` | app.py:113 | Python slicing on in-range indices: `s[lo..hi]` when `lo <= hi`, empty otherwise |
| `Extraction.Extract` | app.py:108-113 | fails, with the `ValueError` message, exactly when the text has no `{` or no `}`; a success is empty or starts with `{` and ends with `}` |
| `Extraction.ExtractWindow` | app.py:108-113 | with `i` the first `{` and `k` the last `}`: the result is `raw[i..k+1]` when `i <= k`, and the empty text when `k < i` |
| `Extraction.EmbeddedRoundTrip` | app.py:108-113 | a candidate object `j` between a prefix without `{` and a suffix without `}` is extracted exactly |
| `Extraction.ExtractIdempotent` | app.py:108-113 | extracting a non-empty extraction result again returns it unchanged |
| `Normalize.LeadingSpaces` | app.py:61 | the length of the leading whitespace run that `strip()` removes: every character before it is whitespace and the next one is not |
| `Normalize.TrailingSpaces` | app.py:61 | the length of the trailing whitespace run that `strip()` removes: every character after it is whitespace and the one before is not |
| `Normalize.Strip` | app.py:61 | `strip()`: result is a contiguous middle of the input with only whitespace cut on both sides, and neither end of it is whitespace |
| `Normalize.Lower` | app.py:61 | `lower()`: same length, each character lowered |
| `Normalize.Normalized` | app.py:61 | `strip().lower()`: no longer than the input, no whitespace at either end, no upper-case letter (idempotence is `NormalizedIdempotent`) |
| `Normalize.NormalizedHasNoUpper` | app.py:81-82 | a normalised verb or attempt holds no upper-case letter |
| `Normalize.StripOfStripped` | app.py:61 | `strip()` leaves a text with no whitespace at its ends unchanged |
| `Normalize.NormalizedIdempotent` | app.py:81-82 | normalising an already normalised value changes nothing |
| `Normalize.NormalizedFixedPoint` | app.py:61 | a text with no whitespace at its ends and no upper-case letter is stored exactly as sent |
| `Prompts.ChallengePhase` | app.py:100 | the label is `Reto_` followed by the tense, which can be read back from it |
| `Prompts.PhaseLabelsDistinguish` | app.py:100 | no challenge label equals the query label `Consulta_Andamiaje` (app.py:72), and equal challenge labels mean equal tenses |
| `Prompts.QueryPrompt` | app.py:70 | the query prompt is the fixed opening, the verb, then the fixed closing |
| `Prompts.QueryPromptInjective` | app.py:70 | different verbs give different query prompts |
| `Prompts.ChallengePrompt` | app.py:85-89 | the challenge prompt has the length of its pieces and opens with the fixed `Fase Reto: Verbo '` (the position of every field is `ChallengePromptCarriesFields`) |
| `Prompts.ChallengePromptCarriesFields` | app.py:85-89 | the verb, the attempt and the tense (twice) stand at fixed offsets of the challenge prompt, between its fixed pieces |
| `Json.Get` | app.py:119 | `dict.get`: a value exactly when the key is present, and then the stored one |
| `Record.Classify` | app.py:119-122 | `Acierto` iff the field is JSON `true`, `Error` iff JSON `false`, `Consulta` iff anything else (null, absent, non-boolean) |
| `Record.AttemptLength` | app.py:129 | `len(intento)` unless the attempt is the sentinel `N/A`; 0 exactly for the sentinel and the empty attempt |
| `Record.Category` | app.py:131 | the parsed `tipo_algoritmo` when the key is present, the text `N/A` when absent |
| `Record.ComposeRow` | app.py:124-132 | a data row of the header's width, columns timestamp, phase, verb, attempt, length, outcome, category in that order, never equal to the header |
| `Record.OutcomeIsThreeWay` | app.py:119-122 | the outcome column is always one of the three labels |
| `Record.NormalizedAttemptLength` | app.py:129 | a normalised attempt is never the sentinel, so its logged length is its real length |
| `Log.AfterAppend` | app.py:134-138 | after one append the file exists, earlier rows are unchanged, the header follows them only if the file was missing, and the row is last |
| `Log.AppendAll` | app.py:134-138 | after a run of appends the file exists exactly when it did or something was appended, at least one row per append was added, and the earlier rows are untouched (the exact rows are `AppendAllRows`) |
| `Log.AppendAllRows` | app.py:134-138 | appending rows gives the old rows, the header only if the file was missing and something was appended, then all the rows in order, none merged |
| `Log.FreshLogHasOneHeader` | app.py:116-138 | N >= 1 data rows appended to a missing file give exactly one header followed by the N rows |
| `Log.InteractionLog.constructor` | app.py:117 | the log starts in the state found on disk; a missing file holds no rows |
| `Log.InteractionLog.Append` | app.py:116-138 | the new state is `AfterAppend` of the old state, and a missing file still holds no rows; appending to a missing file leaves exactly the header and the row |
| `Pipeline.Process` | app.py:107-132 | fails with the extraction message when extraction fails, with the parser's message when parsing fails, and otherwise returns the parsed verdict and its composed row |
| `Pipeline.QuotaReply` | app.py:76 | the payload for a failed model call in either handler (also app.py:104): status 429, `Límite de cuota alcanzado`, wait 60 seconds |
| `Pipeline.InternalError` | app.py:144 | the payload for a processing failure: status 500, `Error interno`, the failure's message as detail; never the quota payload |
| `Pipeline.Respond` | app.py:140-144 | the verdict verbatim exactly when processing succeeded, otherwise the 500 payload carrying the failure's message |
| `Pipeline.Persist` | app.py:134-144 | earlier rows are always kept; a failure leaves the log as it was; a success appends, the result's row last |
| `Pipeline.ProcessAndSave` | app.py:106-144 | returns the verdict (200) and appends one row on success; returns the 500 payload and leaves the log unchanged on failure |
| `Pipeline.Field` | app.py:83 | `data.get(key, default)`: the sent value when the key is present, the default otherwise (also app.py:61, 81-82) |
| `Pipeline.RequestVerb` | app.py:61 | the verb as both handlers read it (also app.py:81): empty when absent, otherwise with no whitespace at its ends and no upper-case letter |
| `Pipeline.RequestAttempt` | app.py:82 | the attempt as read: empty when absent, trimmed and lowered, never the sentinel, so `AttemptLength` is its real length |
| `Pipeline.RequestTense` | app.py:83 | the tense as sent, or `pasado simple` when the key is absent |
| `Pipeline.ConsultPhase1` | app.py:59-76 | a failed model call gives the 429 payload and no log change; otherwise the reply to the normalised verb's prompt is processed with label `Consulta_Andamiaje` and the sentinel attempt |
| `Pipeline.ValidateChallenge` | app.py:79-104 | a failed model call gives the 429 payload and no log change; otherwise the reply to the challenge prompt is processed with label `Reto_<tense>` and the normalised attempt |
| `Pipeline.NoBracesNothingLogged` | app.py:108-144 | a reply without `{` or without `}` gives the 500 payload with the extraction message and leaves the log unchanged |
| `Pipeline.ReversedBracesNothingLogged` | app.py:108-114 | when the last `}` precedes the first `{` and the parser rejects the empty text, the request fails and nothing is logged |
| `Pipeline.EmbeddedVerdictLogged` | app.py:108-138 | a verdict embedded in prose is returned verbatim and exactly one row about it is appended |
| `Pipeline.QueryRowHasNoAttempt` | app.py:72-129 | a query-phase row has label `Consulta_Andamiaje`, attempt `N/A` and length 0 |
| `Pipeline.ChallengeRowFields` | app.py:81-100 | a challenge-phase row has label `Reto_` plus the tense, the normalised verb and attempt, and the attempt's real length |
| `Pipeline.GoWentRequest` | app.py:81-83 | the body `{"verbo": "go", "intento": "went"}` is read as verb `go`, attempt `went` and the default tense |
| `Pipeline.GoWentScenario` | app.py:79-140 | for that body, a reply that is one JSON object with a correct (I-C) verdict is returned verbatim and appends the row `Reto_pasado simple`, `go`, `went`, 4, `Acierto`, `(I-C)` |

## Left out

- The language-model call (`client.models.generate_content`, app.py:64-71, 92-99): a network call, modelled as the parameter `generate`; which exceptions it raises is not modelled, any raise is `None`. The system instruction and model configuration (app.py:21-52, 65-69) are constant text with no logic of its own.
- `json.loads` (app.py:114): a library parser, modelled as the parameter `parse`. JSON numbers, arrays and nested objects are all `JOther`.
- `datetime.now().strftime(...)` (app.py:125): the clock, modelled as the timestamp parameter.
- The real filesystem and `csv.writer` (app.py:116-117, 134-138): the file is an existence flag plus a sequence of rows; CSV quoting, encoding and the rendering of each cell are not modelled. A failing `open` or write (a 500 with the OS error) is not modelled: `Append` always succeeds.
- Flask routing, `request.json`, `jsonify`, `render_template`, CORS and `app.run` (app.py:7-14, 54-56, 140, 146-147): web plumbing. The request body is a map of string fields. A non-JSON body, or a non-string `verbo` or `intento` (which fails at `.strip()`, app.py:61, 81-82, outside the handlers' `try`), is not modelled. A non-string `tiempo`, an explicit `null` included, does not fail: Python's `str()` formats it into the prompt and the label (app.py:86-87, 100, e.g. `Reto_None` or `Reto_3`); that formatting is not modelled either.
- The duplicate-header race between concurrent first writers: the model has a single writer.
- `print` calls for diagnostics (app.py:75, 103, 143): console output only.
- `chequeo.py`: an environment and connectivity probe, not part of the request path.
- `Normalize.Lower`: only ASCII letters are lowered; Python's full Unicode case mapping (including characters whose lower form is longer) is not modelled.
