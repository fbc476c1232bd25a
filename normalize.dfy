/** Request normalisation applied by both handlers to the verb and the attempt:
    `value.strip().lower()` (app.py:61, 81-82). */
module Normalize {

  /** Python's `str.isspace()`: the characters `strip()` removes when called
      without arguments. */
  predicate IsSpace(c: char) {
    c == ' ' || ('\t' <= c <= '\r') || ('\U{1C}' <= c <= '\U{1F}')
    || c == '\U{85}' || c == '\U{A0}' || c == '\U{1680}'
    || ('\U{2000}' <= c <= '\U{200A}') || c == '\U{2028}' || c == '\U{2029}'
    || c == '\U{202F}' || c == '\U{205F}' || c == '\U{3000}'
  }

  predicate IsUpper(c: char) {
    'A' <= c <= 'Z'
  }

  /** `lower()` on one character, for the ASCII letters. */
  function LowerChar(c: char): (r: char)
    ensures !IsUpper(r)
    ensures IsSpace(r) <==> IsSpace(c)
    ensures !IsUpper(c) ==> r == c
  {
    if IsUpper(c) then (c as int + 32) as char else c
  }

  /** Neither end of `s` is whitespace: nothing left for `strip()` to remove. */
  predicate Stripped(s: string) {
    s == [] || (!IsSpace(s[0]) && !IsSpace(s[|s| - 1]))
  }

  /** The length of the whitespace run that starts `s`: what `lstrip()` removes. */
  function LeadingSpaces(s: string): (n: nat)
    ensures n <= |s|
    ensures forall k :: 0 <= k < n ==> IsSpace(s[k])
    ensures n < |s| ==> !IsSpace(s[n])
  {
    if |s| > 0 && IsSpace(s[0]) then 1 + LeadingSpaces(s[1..]) else 0
  }

  /** The length of the whitespace run that ends `s`: what `rstrip()` removes. */
  function TrailingSpaces(s: string): (n: nat)
    ensures n <= |s|
    ensures forall k :: |s| - n <= k < |s| ==> IsSpace(s[k])
    ensures n < |s| ==> !IsSpace(s[|s| - 1 - n])
  {
    if |s| > 0 && IsSpace(s[|s| - 1]) then 1 + TrailingSpaces(s[..|s| - 1]) else 0
  }

  /** `strip()`: the result is the contiguous middle `s[i..j]` of the input,
      everything cut off on either side is whitespace, and the result neither
      starts nor ends with whitespace. */
  function Strip(s: string): (r: string)
    ensures exists i, j :: 0 <= i <= j <= |s| && r == s[i..j]
              && (forall k :: 0 <= k < i ==> IsSpace(s[k]))
              && (forall k :: j <= k < |s| ==> IsSpace(s[k]))
    ensures Stripped(r)
  {
    var i := LeadingSpaces(s);
    if i == |s| then
      assert s[i..i] == [];
      []
    else
      var j := |s| - TrailingSpaces(s);
      assert i < j;
      s[i..j]
  }

  /** `lower()`, for the ASCII letters: same length, each character lowered. */
  function Lower(s: string): (r: string)
    ensures |r| == |s|
    ensures forall i :: 0 <= i < |s| ==> r[i] == LowerChar(s[i])
  {
    seq(|s|, i requires 0 <= i < |s| => LowerChar(s[i]))
  }

  /** The verb and attempt of a request as the handlers store them: no longer
      than the input, no whitespace at either end, no upper-case letter. */
  function Normalized(s: string): (r: string)
    ensures |r| <= |s|
    ensures Stripped(r)
    ensures forall k :: 0 <= k < |r| ==> !IsUpper(r[k])
  {
    var m := Strip(s);
    var t := Lower(m);
    assert Stripped(t) by {
      if t != [] {
        assert IsSpace(t[0]) <==> IsSpace(m[0]);
        assert IsSpace(t[|t| - 1]) <==> IsSpace(m[|m| - 1]);
      }
    }
    t
  }

  /** A normalised value holds no upper-case letter. */
  lemma NormalizedHasNoUpper(s: string, k: nat)
    requires k < |Normalized(s)|
    ensures !IsUpper(Normalized(s)[k])
  {
  }

  /** A lowered text is its own lowering. */
  lemma LowerOfLower(t: string, m: string)
    requires t == Lower(m)
    ensures Lower(t) == t
  {
    assert forall i :: 0 <= i < |t| ==> !IsUpper(t[i]);
  }

  /** A text with no whitespace at either end is left alone by `strip()`. */
  lemma StripOfStripped(s: string)
    requires Stripped(s)
    ensures Strip(s) == s
  {
    if s != [] {
      assert LeadingSpaces(s) == 0;
      assert TrailingSpaces(s) == 0;
    }
  }

  /** Normalising twice is normalising once: lowering keeps the ends free of
      whitespace, so the second `strip()` and `lower()` change nothing. */
  lemma NormalizedIdempotent(s: string)
    ensures Normalized(Normalized(s)) == Normalized(s)
  {
    var m := Strip(s);
    var t := Lower(m);
    StripOfStripped(t);
    LowerOfLower(t, m);
  }

  /** A text with no whitespace at its ends and no upper-case letter is already
      normalised: the handlers store it exactly as sent. */
  lemma NormalizedFixedPoint(s: string)
    requires Stripped(s)
    requires forall k :: 0 <= k < |s| ==> !IsUpper(s[k])
    ensures Normalized(s) == s
  {
    StripOfStripped(s);
    assert Lower(s) == s;
  }
}
