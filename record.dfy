/** The interaction record persisted per request: the outcome label derived from
    the verdict, and the seven-column row built from the request values and the
    parsed verdict (app.py:106, 119-132, 137). */
module Record {
  import opened Json
  import Normalize

  /** One cell of a log row: a text, the attempt length, or a value copied from the
      parsed verdict (the category column). How `csv.writer` renders each cell is
      not part of this model. */
  datatype Cell = Str(s: string) | Int(n: int) | Json(v: JValue)

  type Row = seq<Cell>

  /** The attempt the query handler passes when there is none (app.py:106). */
  const NoAttempt: string := "N/A"

  /** The header row written when the log file is first created (app.py:137). */
  const Header: Row := [Str("Timestamp"), Str("Fase"), Str("Verbo"), Str("Input_Estudiante"),
                        Str("Longitud_Input"), Str("Resultado"), Str("Categoria_Algebraica")]

  const Acierto: string := "Acierto"
  const Error: string := "Error"
  const Consulta: string := "Consulta"

  /** The outcome label for the verdict's `es_correcto` field (`None` when the key
      is absent). `is True` and `is False` are identity tests: only the two JSON
      booleans are evaluative; `null`, an absent key, a string or a number all
      give `Consulta`. */
  function Classify(esCorrecto: Option<JValue>): (r: string)
    ensures r == Acierto <==> esCorrecto == Some(JBool(true))
    ensures r == Error <==> esCorrecto == Some(JBool(false))
    ensures r == Consulta <==> esCorrecto !in {Some(JBool(true)), Some(JBool(false))}
  {
    match esCorrecto
    case Some(JBool(b)) => if b then Acierto else Error
    case _ => Consulta
  }

  /** The length column: `len(intento)`, except 0 for the sentinel "N/A". */
  function AttemptLength(intento: string): (r: nat)
    ensures r == 0 <==> intento == NoAttempt || intento == []
    ensures intento != NoAttempt ==> r == |intento|
  {
    if intento != NoAttempt then |intento| else 0
  }

  /** The category column: `tipo_algoritmo` as parsed when the verdict has that
      key, the text "N/A" when it has not. */
  function Category(verdict: JObject): (r: Cell)
    ensures "tipo_algoritmo" in verdict ==> r == Json(verdict["tipo_algoritmo"])
    ensures "tipo_algoritmo" !in verdict ==> r == Str(NoAttempt)
  {
    if "tipo_algoritmo" in verdict then Json(verdict["tipo_algoritmo"]) else Str(NoAttempt)
  }

  /** A data row: seven columns, the fifth one a number, which sets it apart from
      the header. */
  predicate IsDataRow(r: Row) {
    |r| == |Header| && r[4].Int?
  }

  /** The row `fila` (app.py:124-132): the columns, in the header's order, are the
      timestamp, phase label, verb, attempt, attempt length, outcome and category. */
  function ComposeRow(timestamp: string, fase: string, verbo: string, intento: string,
                      verdict: JObject): (r: Row)
    ensures IsDataRow(r) && r != Header
    ensures r[0] == Str(timestamp) && r[1] == Str(fase) && r[2] == Str(verbo) && r[3] == Str(intento)
    ensures r[4] == Int(AttemptLength(intento))
    ensures r[5] == Str(Classify(Get(verdict, "es_correcto")))
    ensures r[6] == Category(verdict)
  {
    [Str(timestamp), Str(fase), Str(verbo), Str(intento), Int(AttemptLength(intento)),
     Str(Classify(Get(verdict, "es_correcto"))), Category(verdict)]
  }

  /** The outcome column is one of the three labels, whatever the verdict. */
  lemma OutcomeIsThreeWay(timestamp: string, fase: string, verbo: string, intento: string,
                          verdict: JObject)
    ensures ComposeRow(timestamp, fase, verbo, intento, verdict)[5] in {Str(Acierto), Str(Error), Str(Consulta)}
  {
  }

  /** A normalised attempt never equals the sentinel "N/A" (lower-casing removed
      its capitals), so the challenge phase always logs the attempt's real length,
      including 0 for an empty attempt. */
  lemma NormalizedAttemptLength(raw: string)
    ensures AttemptLength(Normalize.Normalized(raw)) == |Normalize.Normalized(raw)|
  {
    var a := Normalize.Normalized(raw);
    if a == NoAttempt {
      Normalize.NormalizedHasNoUpper(raw, 0);
      assert false;
    }
  }
}
