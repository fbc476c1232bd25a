/** The per-request texts the handlers build: the two phase labels written to the
    log and the two task prompts sent to the language model (app.py:70, 72, 83,
    85-89, 100). */
module Prompts {

  /** Phase label of the query handler (app.py:72). */
  const QueryPhase: string := "Consulta_Andamiaje"

  /** Tense the challenge handler uses when the request names none (app.py:83). */
  const DefaultTense: string := "pasado simple"

  const ChallengePrefix: string := "Reto_"

  /** Phase label of the challenge handler: `f"Reto_{tiempo}"` (app.py:100). */
  function ChallengePhase(tiempo: string): (r: string)
    ensures |r| == |ChallengePrefix| + |tiempo|
    ensures r[..|ChallengePrefix|] == ChallengePrefix && r[|ChallengePrefix|..] == tiempo
  {
    ChallengePrefix + tiempo
  }

  /** The label of a log row tells the two handlers apart, and a challenge label
      determines its tense. */
  lemma PhaseLabelsDistinguish(t: string, u: string)
    ensures ChallengePhase(t) != QueryPhase
    ensures ChallengePhase(t) == ChallengePhase(u) ==> t == u
  {
    assert ChallengePhase(t)[0] == 'R' && QueryPhase[0] == 'C';
    if ChallengePhase(t) == ChallengePhase(u) {
      assert t == ChallengePhase(t)[|ChallengePrefix|..];
    }
  }

  const QueryOpen: string := "Fase 1: Analiza el infinitivo '"
  const QueryClose: string := "'. No conjugues."

  /** The query task: `f"Fase 1: Analiza el infinitivo '{verbo}'. No conjugues."`.
      The verb sits between the fixed opening and closing. */
  function QueryPrompt(verbo: string): (r: string)
    ensures |r| == |QueryOpen| + |verbo| + |QueryClose|
    ensures r[..|QueryOpen|] == QueryOpen
    ensures r[|QueryOpen|..|QueryOpen| + |verbo|] == verbo
    ensures r[|QueryOpen| + |verbo|..] == QueryClose
  {
    QueryOpen + verbo + QueryClose
  }

  /** Different verbs give different query prompts: the prompt determines the verb. */
  lemma QueryPromptInjective(a: string, b: string)
    requires QueryPrompt(a) == QueryPrompt(b)
    ensures a == b
  {
  }

  const ChallengeOpen: string := "Fase Reto: Verbo '"
  const ChallengeTense: string := "'. Intento del alumno para "
  const ChallengeAttempt: string := ": '"
  const ChallengeExamples: string := "'. Si el intento es correcto, genera obligatoriamente los 2 ejemplos en "
  const ChallengeClose: string := " dentro del campo 'ejemplos' del JSON."

  /** The challenge task, concatenated from the three request values (app.py:85-89). */
  function ChallengePrompt(verbo: string, tiempo: string, intento: string): (r: string)
    ensures |r| == |ChallengeOpen| + |verbo| + |ChallengeTense| + |tiempo| + |ChallengeAttempt|
                   + |intento| + |ChallengeExamples| + |tiempo| + |ChallengeClose|
    ensures r[..|ChallengeOpen|] == ChallengeOpen
  {
    ChallengeOpen + verbo + ChallengeTense + tiempo + ChallengeAttempt + intento
      + ChallengeExamples + tiempo + ChallengeClose
  }

  /** Each request value stands at a fixed offset of the challenge prompt, the tense
      twice: once for the judgement, once for the examples it asks for. */
  lemma ChallengePromptCarriesFields(verbo: string, tiempo: string, intento: string)
    ensures var p := ChallengePrompt(verbo, tiempo, intento);
      var v := |ChallengeOpen|;
      var t1 := v + |verbo| + |ChallengeTense|;
      var a := t1 + |tiempo| + |ChallengeAttempt|;
      var t2 := a + |intento| + |ChallengeExamples|;
      && |p| == t2 + |tiempo| + |ChallengeClose|
      && p[..v] == ChallengeOpen
      && p[v..v + |verbo|] == verbo
      && p[t1..t1 + |tiempo|] == tiempo
      && p[a..a + |intento|] == intento
      && p[t2..t2 + |tiempo|] == tiempo
      && p[t2 + |tiempo|..] == ChallengeClose
  {
    SplicedFields(ChallengeOpen, verbo, ChallengeTense, tiempo, ChallengeAttempt, intento,
      ChallengeExamples, ChallengeClose);
  }

  /** Offsets of the pieces of a text spliced from fixed parts `o`, `m`, `n`, `x`,
      `c` and values `v`, `t` (twice) and `a`. */
  lemma SplicedFields(o: string, v: string, m: string, t: string, n: string, a: string,
                      x: string, c: string)
    ensures var p := o + v + m + t + n + a + x + t + c;
      var i1 := |o|;
      var i2 := i1 + |v| + |m|;
      var i3 := i2 + |t| + |n|;
      var i4 := i3 + |a| + |x|;
      && |p| == i4 + |t| + |c|
      && p[..i1] == o
      && p[i1..i1 + |v|] == v
      && p[i2..i2 + |t|] == t
      && p[i3..i3 + |a|] == a
      && p[i4..i4 + |t|] == t
      && p[i4 + |t|..] == c
  {
    var p := o + v + m + t + n + a + x + t + c;
    Middle([], o, v + m + t + n + a + x + t + c);
    Middle(o, v, m + t + n + a + x + t + c);
    Middle(o + v + m, t, n + a + x + t + c);
    Middle(o + v + m + t + n, a, x + t + c);
    Middle(o + v + m + t + n + a + x, t, c);
    Middle(o + v + m + t + n + a + x + t, c, []);
  }

  /** The middle part of a three-part concatenation, read back by slicing. */
  lemma Middle(x: string, y: string, z: string)
    ensures (x + y + z)[|x|..|x| + |y|] == y
  {
  }
}
