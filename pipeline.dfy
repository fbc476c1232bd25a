/** `procesar_y_guardar` and the two request handlers around it (app.py:58-144).
    The language model and the JSON parser are parameters: `generate` gives the
    reply text for a prompt, or `None` when the call raised; `parse` stands for
    `json.loads` on the extracted text. The timestamp is a parameter as well. */
module Pipeline {
  import opened Json
  import opened Extraction
  import opened Record
  import opened Log
  import Normalize
  import Prompts

  /** What a handler returns to the client: the parsed verdict verbatim (status
      200), or an error payload `{"error": ..., "detalle": ...}` with its status. */
  datatype Response = Ok(body: JObject) | ErrorReply(status: int, error: string, detalle: string)

  /** The fixed payload for a failed model call (app.py:76, 104): status 429, and
      the client is told to wait a minute. */
  function QuotaReply(): (r: Response)
    ensures r.ErrorReply? && r.status == 429
    ensures r.error == "Límite de cuota alcanzado" && r.detalle == "Espera 60 segundos antes de reintentar."
  {
    ErrorReply(429, "Límite de cuota alcanzado", "Espera 60 segundos antes de reintentar.")
  }

  /** The payload for a failure inside `procesar_y_guardar` (app.py:144): status
      500 with the failure's message as detail, never the quota payload. */
  function InternalError(detalle: string): (r: Response)
    ensures r.ErrorReply? && r.status == 500 && r.error == "Error interno" && r.detalle == detalle
    ensures r != QuotaReply()
  {
    ErrorReply(500, "Error interno", detalle)
  }

  /** A successfully processed reply: the verdict to return and the row to log. */
  datatype Processed = Processed(body: JObject, row: Row)

  /** The pure part of `procesar_y_guardar`: extract, parse, classify, compose. An
      extraction or parse failure is reported before any row exists. */
  function Process(timestamp: string, verbo: string, fase: string, raw: string, intento: string,
                   parse: string -> Result<JObject>): (r: Result<Processed>)
    ensures Extract(raw).Failure? ==> r == Failure(NoJsonMessage)
    ensures Extract(raw).Success? && parse(Extract(raw).value).Failure? ==>
              r == Failure(parse(Extract(raw).value).error)
    ensures r.Success? <==> Extract(raw).Success? && parse(Extract(raw).value).Success?
    ensures r.Success? ==>
              && r.value.body == parse(Extract(raw).value).value
              && r.value.row == ComposeRow(timestamp, fase, verbo, intento, r.value.body)
  {
    match Extract(raw)
    case Failure(e) => Failure(e)
    case Success(texto) =>
      match parse(texto)
      case Failure(e) => Failure(e)
      case Success(verdict) => Success(Processed(verdict, ComposeRow(timestamp, fase, verbo, intento, verdict)))
  }

  /** The response for a processing result: the verdict verbatim exactly when
      processing succeeded, otherwise the 500 payload carrying the failure. */
  function Respond(p: Result<Processed>): (r: Response)
    ensures r.Ok? <==> p.Success?
    ensures p.Success? ==> r.body == p.value.body
    ensures p.Failure? ==> r.status == 500 && r.error == "Error interno" && r.detalle == p.error
  {
    match p
    case Success(done) => Ok(done.body)
    case Failure(e) => InternalError(e)
  }

  /** The log after a processing result: one append of the result's row on
      success, untouched on failure; the earlier rows are kept either way. */
  function Persist(p: Result<Processed>, f: LogFile): (g: LogFile)
    ensures |g.rows| >= |f.rows| && g.rows[..|f.rows|] == f.rows
    ensures p.Failure? ==> g == f
    ensures p.Success? ==> g.present && |g.rows| > |f.rows| && g.rows[|g.rows| - 1] == p.value.row
  {
    match p
    case Success(done) => AfterAppend(f, done.row)
    case Failure(_) => f
  }

  /** `procesar_y_guardar(verbo, fase, texto_raw, intento)`: on success the row is
      appended and the verdict returned; on failure the 500 payload is returned and
      the log is left as it was. */
  method ProcessAndSave(log: InteractionLog, timestamp: string, verbo: string, fase: string,
                        raw: string, intento: string, parse: string -> Result<JObject>)
    returns (resp: Response)
    requires log.Valid()
    modifies log
    ensures log.Valid()
    ensures resp == Respond(Process(timestamp, verbo, fase, raw, intento, parse))
    ensures log.State() == Persist(Process(timestamp, verbo, fase, raw, intento, parse), old(log.State()))
  {
    var extracted := Extract(raw);
    if extracted.Failure? {
      return InternalError(extracted.error);
    }
    var parsed := parse(extracted.value);
    if parsed.Failure? {
      return InternalError(parsed.error);
    }
    var verdict := parsed.value;
    var fila := ComposeRow(timestamp, fase, verbo, intento, verdict);
    log.Append(fila);
    resp := Ok(verdict);
  }

  /** A JSON request body, as far as the handlers read it: string-valued fields. */
  type Body = map<string, string>

  /** `data.get(key, default)`: the sent value when the key is present, the default
      otherwise. */
  function Field(body: Body, key: string, default: string): (r: string)
    ensures key in body ==> r == body[key]
    ensures key !in body ==> r == default
  {
    if key in body then body[key] else default
  }

  /** The verb as `consultar_fase1` and `validar_reto` read it (app.py:61, 81):
      empty when absent, otherwise trimmed and lower-cased. */
  function RequestVerb(body: Body): (r: string)
    ensures "verbo" !in body ==> r == []
    ensures Normalize.Stripped(r) && forall k :: 0 <= k < |r| ==> !Normalize.IsUpper(r[k])
  {
    Normalize.Normalized(Field(body, "verbo", ""))
  }

  /** The attempt as `validar_reto` reads it (app.py:82): empty when absent,
      otherwise trimmed and lower-cased, so never the `N/A` sentinel and always
      logged with its real length. */
  function RequestAttempt(body: Body): (r: string)
    ensures "intento" !in body ==> r == []
    ensures Normalize.Stripped(r) && forall k :: 0 <= k < |r| ==> !Normalize.IsUpper(r[k])
    ensures AttemptLength(r) == |r|
  {
    NormalizedAttemptLength(Field(body, "intento", ""));
    Normalize.Normalized(Field(body, "intento", ""))
  }

  /** The tense as `validar_reto` reads it: neither trimmed nor lowered, and
      "pasado simple" only when the key is absent (app.py:83). */
  function RequestTense(body: Body): (r: string)
    ensures "tiempo" !in body ==> r == Prompts.DefaultTense
    ensures "tiempo" in body ==> r == body["tiempo"]
  {
    Field(body, "tiempo", Prompts.DefaultTense)
  }

  /** `POST /consultar_fase1`: ask the model about the verb, then process its reply
      with the query phase label and the sentinel attempt; a failed call gives the
      429 payload and logs nothing. */
  method ConsultPhase1(log: InteractionLog, body: Body, generate: string -> Option<string>,
                       parse: string -> Result<JObject>, timestamp: string)
    returns (resp: Response)
    requires log.Valid()
    modifies log
    ensures log.Valid()
    ensures generate(Prompts.QueryPrompt(RequestVerb(body))).None? ==>
              resp == QuotaReply() && log.State() == old(log.State())
    ensures generate(Prompts.QueryPrompt(RequestVerb(body))).Some? ==>
              var p := Process(timestamp, RequestVerb(body), Prompts.QueryPhase,
                               generate(Prompts.QueryPrompt(RequestVerb(body))).value, NoAttempt, parse);
              resp == Respond(p) && log.State() == Persist(p, old(log.State()))
  {
    var verbo := RequestVerb(body);
    var response := generate(Prompts.QueryPrompt(verbo));
    if response.None? {
      return QuotaReply();
    }
    resp := ProcessAndSave(log, timestamp, verbo, Prompts.QueryPhase, response.value, NoAttempt, parse);
  }

  /** `POST /validar_reto`: ask the model to judge the attempt for the tense, then
      process its reply with the phase label `Reto_<tense>`; a failed call gives the
      429 payload and logs nothing. */
  method ValidateChallenge(log: InteractionLog, body: Body, generate: string -> Option<string>,
                           parse: string -> Result<JObject>, timestamp: string)
    returns (resp: Response)
    requires log.Valid()
    modifies log
    ensures log.Valid()
    ensures var prompt := Prompts.ChallengePrompt(RequestVerb(body), RequestTense(body), RequestAttempt(body));
      generate(prompt).None? ==> resp == QuotaReply() && log.State() == old(log.State())
    ensures var prompt := Prompts.ChallengePrompt(RequestVerb(body), RequestTense(body), RequestAttempt(body));
      generate(prompt).Some? ==>
        var p := Process(timestamp, RequestVerb(body), Prompts.ChallengePhase(RequestTense(body)),
                         generate(prompt).value, RequestAttempt(body), parse);
        resp == Respond(p) && log.State() == Persist(p, old(log.State()))
  {
    var verbo := RequestVerb(body);
    var intento := RequestAttempt(body);
    var tiempo := RequestTense(body);
    var prompt := Prompts.ChallengePrompt(verbo, tiempo, intento);
    var response := generate(prompt);
    if response.None? {
      return QuotaReply();
    }
    resp := ProcessAndSave(log, timestamp, verbo, Prompts.ChallengePhase(tiempo), response.value,
                           intento, parse);
  }

  /** A reply with no `{` or no `}` gives the 500 payload with the extraction
      message, and the log is not touched. */
  lemma NoBracesNothingLogged(timestamp: string, verbo: string, fase: string, raw: string,
                              intento: string, parse: string -> Result<JObject>, f: LogFile)
    requires '{' !in raw || '}' !in raw
    ensures Respond(Process(timestamp, verbo, fase, raw, intento, parse)) == InternalError(NoJsonMessage)
    ensures Persist(Process(timestamp, verbo, fase, raw, intento, parse), f) == f
  {
  }

  /** When the last `}` comes before the first `{`, the extracted text is empty;
      since `json.loads("")` raises, the request fails with the parser's message and
      nothing is logged. */
  lemma ReversedBracesNothingLogged(timestamp: string, verbo: string, fase: string, raw: string,
                                    intento: string, parse: string -> Result<JObject>, f: LogFile,
                                    i: nat, k: nat)
    requires i < |raw| && raw[i] == '{' && '{' !in raw[..i]
    requires k < |raw| && raw[k] == '}' && '}' !in raw[k + 1..]
    requires k < i
    requires parse([]).Failure?
    ensures Respond(Process(timestamp, verbo, fase, raw, intento, parse)) == InternalError(parse([]).error)
    ensures Persist(Process(timestamp, verbo, fase, raw, intento, parse), f) == f
  {
    ExtractWindow(raw, i, k);
  }

  /** A verdict `j` embedded in prose (no `{` before it, no `}` after it) is what
      the handler returns, and exactly one row about it is appended, the header
      first when the log file was missing. */
  lemma EmbeddedVerdictLogged(timestamp: string, verbo: string, fase: string, pre: string,
                              j: string, post: string, intento: string,
                              parse: string -> Result<JObject>, verdict: JObject, f: LogFile)
    requires '{' !in pre && '}' !in post
    requires |j| > 0 && j[0] == '{' && j[|j| - 1] == '}'
    requires parse(j) == Success(verdict)
    ensures Respond(Process(timestamp, verbo, fase, pre + j + post, intento, parse)) == Ok(verdict)
    ensures Persist(Process(timestamp, verbo, fase, pre + j + post, intento, parse), f)
            == AfterAppend(f, ComposeRow(timestamp, fase, verbo, intento, verdict))
  {
    EmbeddedRoundTrip(pre, j, post);
  }

  /** A query-phase row records the sentinel attempt with length 0 and the
      query phase label. */
  lemma QueryRowHasNoAttempt(timestamp: string, verbo: string, raw: string,
                             parse: string -> Result<JObject>)
    requires Process(timestamp, verbo, Prompts.QueryPhase, raw, NoAttempt, parse).Success?
    ensures var row := Process(timestamp, verbo, Prompts.QueryPhase, raw, NoAttempt, parse).value.row;
      row[1] == Str("Consulta_Andamiaje") && row[3] == Str("N/A") && row[4] == Int(0)
  {
  }

  /** A challenge-phase row records the trimmed, lower-cased attempt with its true
      length and the label `Reto_` followed by the requested tense. */
  lemma ChallengeRowFields(timestamp: string, body: Body, raw: string,
                           parse: string -> Result<JObject>)
    requires Process(timestamp, RequestVerb(body), Prompts.ChallengePhase(RequestTense(body)),
                     raw, RequestAttempt(body), parse).Success?
    ensures var row := Process(timestamp, RequestVerb(body), Prompts.ChallengePhase(RequestTense(body)),
                               raw, RequestAttempt(body), parse).value.row;
      && row[1] == Str("Reto_" + RequestTense(body))
      && row[2] == Str(RequestVerb(body))
      && row[3] == Str(RequestAttempt(body))
      && row[4] == Int(|RequestAttempt(body)|)
  {
    NormalizedAttemptLength(Field(body, "intento", ""));
  }

  /** The request `{"verbo": "go", "intento": "went"}` is read as the verb "go",
      the attempt "went" and the default tense. */
  lemma GoWentRequest()
    ensures var body: Body := map["verbo" := "go", "intento" := "went"];
      && RequestVerb(body) == "go" && RequestAttempt(body) == "went"
      && RequestTense(body) == Prompts.DefaultTense
  {
    var body: Body := map["verbo" := "go", "intento" := "went"];
    assert Field(body, "verbo", "") == "go" && Field(body, "intento", "") == "went";
    Normalize.NormalizedFixedPoint("go");
    Normalize.NormalizedFixedPoint("went");
  }

  /** The challenge request `{"verbo": "go", "intento": "went"}` (no tense, so the
      default one), answered by a reply that is one JSON object holding a correct
      verdict of category (I-C): the verdict is returned and the row appended logs
      phase "Reto_pasado simple", attempt length 4, outcome Acierto and category
      (I-C). */
  lemma GoWentScenario(timestamp: string, reply: string, parse: string -> Result<JObject>,
                       verdict: JObject, f: LogFile)
    requires |reply| > 0 && reply[0] == '{' && reply[|reply| - 1] == '}'
    requires "es_correcto" in verdict && verdict["es_correcto"] == JBool(true)
    requires "tipo_algoritmo" in verdict && verdict["tipo_algoritmo"] == JString("(I-C)")
    requires parse(reply) == Success(verdict)
    ensures var body: Body := map["verbo" := "go", "intento" := "went"];
      var p := Process(timestamp, RequestVerb(body), Prompts.ChallengePhase(RequestTense(body)),
                       reply, RequestAttempt(body), parse);
      && RequestVerb(body) == "go" && RequestAttempt(body) == "went"
      && RequestTense(body) == Prompts.DefaultTense
      && Respond(p) == Ok(verdict)
      && Persist(p, f) == AfterAppend(f, [Str(timestamp), Str("Reto_pasado simple"), Str("go"), Str("went"),
                                          Int(4), Str(Acierto), Json(JString("(I-C)"))])
  {
    GoWentRequest();
    assert Extract(reply) == Success(reply) by {
      EmbeddedRoundTrip([], reply, []);
      assert [] + reply + [] == reply;
    }
    assert AttemptLength("went") == 4 by { assert |"went"| != |NoAttempt|; }
    assert Prompts.ChallengePhase(Prompts.DefaultTense) == "Reto_pasado simple";
    assert Classify(Get(verdict, "es_correcto")) == Acierto;
  }
}
