/** Characters as the bucket plugin's regular expressions and key handling
    see them: Go's `(?i)` case folding, the `\w` class under that flag, the
    name characters of `os.Expand`, and `strings.ToLower` on keys. */
module Text {

  /** U+212A KELVIN SIGN and U+017F LATIN SMALL LETTER LONG S: the only
      characters outside ASCII that share a simple case-folding orbit with an
      ASCII letter ('k' and 's'). Go's `(?i)` matches them against those
      letters, and its folded `\w` class contains them. */
  const Kelvin: char := '\U{212A}'
  const LongS: char := '\U{017F}'

  predicate IsUpper(c: char) { 'A' <= c <= 'Z' }

  predicate IsLowerLetter(c: char) { 'a' <= c <= 'z' }

  predicate IsDigit(c: char) { '0' <= c <= '9' }

  /** A name character of `os.Expand`: ASCII letter, digit or underscore. */
  predicate IsAlnum(c: char) { IsUpper(c) || IsLowerLetter(c) || IsDigit(c) || c == '_' }

  /** A character of `\w` when the pattern carries `(?i)`. */
  predicate IsWordChar(c: char) { IsAlnum(c) || c == Kelvin || c == LongS }

  /** The representative of c's case-folding orbit that a lower-case pattern
      letter is written with; every other character is its own representative. */
  function Fold(c: char): (f: char)
    ensures IsLowerLetter(f) <==> IsUpper(c) || IsLowerLetter(c) || c == Kelvin || c == LongS
    ensures !IsLowerLetter(f) ==> f == c
    ensures IsWordChar(f) <==> IsWordChar(c)
  {
    if IsUpper(c) then (c as int + 32) as char
    else if c == Kelvin then 'k'
    else if c == LongS then 's'
    else c
  }

  /** Whether s begins with the pattern p (written in lower case) under `(?i)`. */
  predicate HasPrefixFold(s: string, p: string)
  {
    |p| <= |s| && forall i :: 0 <= i < |p| ==> Fold(s[i]) == p[i]
  }

  /** Whether s is exactly the pattern p under `(?i)`. */
  predicate EqualsFold(s: string, p: string)
  {
    |s| == |p| && HasPrefixFold(s, p)
  }

  /** Every character matches `.` (Go's `.` excludes only the newline). */
  predicate NoNewline(s: string)
  {
    forall i :: 0 <= i < |s| ==> s[i] != '\n'
  }

  /** s matches `\w+` under `(?i)`. */
  predicate IsWord(s: string)
  {
    |s| > 0 && forall i :: 0 <= i < |s| ==> IsWordChar(s[i])
  }

  /** The character classes a greedy repetition in the grammar runs over. */
  datatype Class = Word | Alnum | Digit

  predicate InClass(c: char, k: Class)
  {
    match k
    case Word => IsWordChar(c)
    case Alnum => IsAlnum(c)
    case Digit => IsDigit(c)
  }

  /** The length of the longest prefix of s whose characters are all in k:
      what a greedy `k+` or `k*` consumes. */
  function Span(s: string, k: Class): (n: nat)
    ensures n <= |s|
    ensures forall i :: 0 <= i < n ==> InClass(s[i], k)
    ensures n < |s| ==> !InClass(s[n], k)
  {
    if |s| == 0 || !InClass(s[0], k) then 0 else 1 + Span(s[1..], k)
  }

  /** `unicode.ToLower` on one character, exact on the characters of `\w`
      under `(?i)`: ASCII capitals and the Kelvin sign lower to ASCII, the
      long s is already lower case. */
  function LowerChar(c: char): (l: char)
  {
    if IsUpper(c) then (c as int + 32) as char
    else if c == Kelvin then 'k'
    else c
  }

  /** `strings.ToLower`, character by character: the length is kept, every
      character still matches the same pattern letters under `(?i)`, and no
      ASCII capital or Kelvin sign is left. */
  function Lower(s: string): (r: string)
    ensures |r| == |s|
    ensures forall i :: 0 <= i < |r| ==> Fold(r[i]) == Fold(s[i])
    ensures forall i :: 0 <= i < |r| ==> !IsUpper(r[i]) && r[i] != Kelvin
  {
    seq(|s|, i requires 0 <= i < |s| => LowerChar(s[i]))
  }

  /** Lower-casing twice changes nothing more: stored keys are fixed points. */
  lemma LowerIdempotent(s: string)
    ensures Lower(Lower(s)) == Lower(s)
  {
  }

  /** A key holding an ASCII capital is never a lower-cased key. */
  lemma UpperNotLowered(s: string, i: nat)
    requires i < |s| && IsUpper(s[i])
    ensures Lower(s) != s
  {
    assert Lower(s)[i] != s[i];
  }

  /** A position where s and p differ refutes the prefix. */
  lemma PrefixMismatch(s: string, p: string, i: nat)
    requires i < |p| && (|p| <= |s| ==> Fold(s[i]) != p[i])
    ensures !HasPrefixFold(s, p)
  {
  }

  /** A pattern written in lower case is a prefix of itself followed by anything. */
  lemma PrefixOfPattern(p: string, rest: string)
    requires forall i :: 0 <= i < |p| ==> Fold(p[i]) == p[i]
    ensures HasPrefixFold(p + rest, p)
  {
    assert forall i :: 0 <= i < |p| ==> (p + rest)[i] == p[i];
  }
}
