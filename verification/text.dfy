/** The two string operations of JavaScript that the application's guards use:
    `String.prototype.trim` and `String.prototype.includes`. */
module Text {

  /** The characters `trim` removes: the WhiteSpace and LineTerminator code
      points of section 12.2 and 12.3 of ECMA-262. */
  predicate IsWhitespace(c: char)
  {
    c == '\t' || c == '\U{B}' || c == '\U{C}' || c == ' ' || c == '\U{A0}' || c == '\U{FEFF}'
    || c == '\n' || c == '\r' || c == '\U{2028}' || c == '\U{2029}'
    || c == '\U{1680}' || ('\U{2000}' <= c <= '\U{200A}')
    || c == '\U{202F}' || c == '\U{205F}' || c == '\U{3000}'
  }

  /** Every character of `s` is whitespace (vacuously so for ""). */
  predicate AllWhitespace(s: string)
  {
    forall i :: 0 <= i < |s| ==> IsWhitespace(s[i])
  }

  /** `s` with its leading whitespace removed. */
  function TrimStart(s: string): (r: string)
    ensures |r| <= |s| && r == s[|s| - |r|..]
    ensures AllWhitespace(s[..|s| - |r|])
    ensures |r| > 0 ==> !IsWhitespace(r[0])
  {
    if |s| > 0 && IsWhitespace(s[0]) then
      var r := TrimStart(s[1..]);
      assert s[1..][..|s[1..]| - |r|] == s[1..|s| - |r|];
      r
    else s
  }

  /** `s` with its trailing whitespace removed. */
  function TrimEnd(s: string): (r: string)
    ensures |r| <= |s| && r == s[..|r|]
    ensures AllWhitespace(s[|r|..])
    ensures |r| > 0 ==> !IsWhitespace(r[|r| - 1])
  {
    if |s| > 0 && IsWhitespace(s[|s| - 1]) then
      var r := TrimEnd(s[..|s| - 1]);
      assert s[..|s| - 1][|r|..] == s[|r|..|s| - 1];
      r
    else s
  }

  /** `s.trim()`. */
  function Trim(s: string): string
  {
    TrimEnd(TrimStart(s))
  }

  /** `s.trim()` is empty exactly when `s` consists of whitespace only, which
      is what the application's `if (!x.trim())` guards test. */
  lemma TrimEmptyIffBlank(s: string)
    ensures Trim(s) == "" <==> AllWhitespace(s)
  {
  }

  /** `s` occurs in `text` as a contiguous block starting at `k`. */
  predicate OccursAt(text: string, s: string, k: nat)
  {
    k + |s| <= |text| && text[k..k + |s|] == s
  }

  /** `text.includes(s)`: a search for `s` at every position of `text`. */
  function Includes(text: string, s: string): (b: bool)
    ensures b <==> exists k: nat :: OccursAt(text, s, k)
  {
    IncludesFrom(text, s, 0)
  }

  function IncludesFrom(text: string, s: string, k: nat): (b: bool)
    ensures b <==> exists j: nat :: k <= j && OccursAt(text, s, j)
    decreases |text| - k
  {
    if k + |s| > |text| then
      assert forall j: nat :: k <= j ==> !OccursAt(text, s, j);
      false
    else if text[k..k + |s|] == s then
      assert OccursAt(text, s, k);
      true
    else
      var b := IncludesFrom(text, s, k + 1);
      assert forall j: nat :: k <= j && OccursAt(text, s, j) ==> k + 1 <= j;
      b
  }

  /** Every string includes the empty string. */
  lemma IncludesEmpty(text: string)
    ensures Includes(text, "")
  {
  }
}
