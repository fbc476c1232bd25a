/** Recovery of the JSON object embedded in the model's free-form reply: the text
    from the first `{` up to and including the last `}` (app.py:108-113). This is
    deliberately not a brace matcher: stray braces in prose are taken as they come. */
module Extraction {
  import opened Json

  /** The `ValueError` message raised when the reply holds no `{` or no `}`. */
  const NoJsonMessage: string := "No se encontró un JSON válido en la respuesta"

  /** Python's `s.find(c)`: the index of the first `c`, or -1 when there is none. */
  function Find(s: string, c: char): (r: int)
    ensures -1 <= r < |s|
    ensures r == -1 <==> c !in s
    ensures 0 <= r ==> s[r] == c && c !in s[..r]
  {
    if |s| == 0 then -1
    else if s[0] == c then 0
    else
      var k := Find(s[1..], c);
      if k == -1 then -1
      else
        assert s[..k + 1] == [s[0]] + s[1..][..k];
        k + 1
  }

  /** Python's `s.rfind(c)`: the index of the last `c`, or -1 when there is none. */
  function RFind(s: string, c: char): (r: int)
    ensures -1 <= r < |s|
    ensures r == -1 <==> c !in s
    ensures 0 <= r ==> s[r] == c && c !in s[r + 1..]
  {
    if |s| == 0 then -1
    else if s[|s| - 1] == c then |s| - 1
    else
      var k := RFind(s[..|s| - 1], c);
      if k == -1 then
        assert s == s[..|s| - 1] + [s[|s| - 1]];
        -1
      else
        assert s[k + 1..] == s[..|s| - 1][k + 1..] + [s[|s| - 1]];
        k
  }

  /** Python's `s[lo:hi]` for indices already inside the string: empty when
      `hi` does not lie beyond `lo`. */
  function Slice(s: string, lo: nat, hi: nat): (r: string)
    requires lo <= |s| && hi <= |s|
    ensures lo <= hi ==> r == s[lo..hi]
    ensures hi < lo ==> r == []
  {
    if lo <= hi then s[lo..hi] else []
  }

  /** The extraction step: `inicio = find('{')`, `fin = rfind('}') + 1`, fail when
      either brace is missing, otherwise the half-open slice `[inicio:fin]`. */
  function Extract(raw: string): (r: Result<string>)
    ensures r.Failure? <==> '{' !in raw || '}' !in raw
    ensures r.Failure? ==> r.error == NoJsonMessage
    ensures r.Success? ==> r.value == [] || (r.value[0] == '{' && r.value[|r.value| - 1] == '}')
  {
    var inicio := Find(raw, '{');
    var fin := RFind(raw, '}') + 1;
    if inicio == -1 || fin == 0 then Failure(NoJsonMessage)
    else Success(Slice(raw, inicio, fin))
  }

  /** Whatever the text, when `i` is the position of its first `{` and `k` that of
      its last `}`, extraction returns the span from `i` to `k` inclusive, and the
      empty text when the last `}` comes before the first `{`. */
  lemma ExtractWindow(raw: string, i: nat, k: nat)
    requires i < |raw| && raw[i] == '{' && '{' !in raw[..i]
    requires k < |raw| && raw[k] == '}' && '}' !in raw[k + 1..]
    ensures i <= k ==> Extract(raw) == Success(raw[i..k + 1])
    ensures k < i ==> Extract(raw) == Success([])
  {
    FirstIndexUnique(raw, '{', i, Find(raw, '{'));
    LastIndexUnique(raw, '}', k, RFind(raw, '}'));
  }

  /** Two positions that both hold the first occurrence of `c` are the same. */
  lemma FirstIndexUnique(s: string, c: char, i: nat, j: int)
    requires i < |s| && s[i] == c && c !in s[..i]
    requires 0 <= j < |s| && s[j] == c && c !in s[..j]
    ensures i == j
  {
  }

  /** Two positions that both hold the last occurrence of `c` are the same. */
  lemma LastIndexUnique(s: string, c: char, i: nat, j: int)
    requires i < |s| && s[i] == c && c !in s[i + 1..]
    requires 0 <= j < |s| && s[j] == c && c !in s[j + 1..]
    ensures i == j
  {
  }

  /** Embedding round trip: a candidate object `j` (opening with `{`, closing with
      `}`) wrapped in a prefix without `{` and a suffix without `}` comes back out
      exactly, whatever braces `j` holds inside. */
  lemma EmbeddedRoundTrip(p: string, j: string, q: string)
    requires '{' !in p && '}' !in q
    requires |j| > 0 && j[0] == '{' && j[|j| - 1] == '}'
    ensures Extract(p + j + q) == Success(j)
  {
    var raw := p + j + q;
    assert raw[..|p|] == p;
    assert raw[|p| + |j|..] == q;
    assert raw[|p|..|p| + |j|] == j;
    ExtractWindow(raw, |p|, |p| + |j| - 1);
  }

  /** A non-empty text that extraction returned is extracted unchanged a second
      time: on that domain the recovery is idempotent. (An empty slice, from a
      last `}` before the first `{`, fails the second time.) */
  lemma ExtractIdempotent(raw: string)
    requires Extract(raw).Success? && Extract(raw).value != []
    ensures Extract(Extract(raw).value) == Extract(raw)
  {
    var t := Extract(raw).value;
    EmbeddedRoundTrip([], t, []);
    assert [] + t + [] == t;
  }
}
