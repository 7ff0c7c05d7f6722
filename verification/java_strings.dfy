/**
 * The few `java.lang.String` operations the configuration code relies on:
 * `trim`, ASCII case mapping under `Locale.ENGLISH`, `equalsIgnoreCase`
 * and `startsWith`.
 */
module JavaStrings {

  /** `String.trim` removes every leading and trailing code unit at or below U+0020. */
  predicate IsBlank(c: char) {
    c <= ' '
  }

  /**
   * `String.trim`: drops blanks from the front, then from the back, until
   * both ends are non-blank or nothing is left.
   */
  function Trim(s: string): string {
    if |s| > 0 && IsBlank(s[0]) then Trim(s[1..])
    else if |s| > 0 && IsBlank(s[|s| - 1]) then Trim(s[..|s| - 1])
    else s
  }

  /** The trimmed text is no longer than its input, keeps only its characters, and has non-blank ends. */
  lemma {:induction false} TrimSpec(s: string)
    ensures |Trim(s)| <= |s|
    ensures |Trim(s)| > 0 ==> !IsBlank(Trim(s)[0]) && !IsBlank(Trim(s)[|Trim(s)| - 1])
    ensures forall c :: c in Trim(s) ==> c in s
    decreases |s|
  {
    if |s| > 0 && IsBlank(s[0]) {
      TrimSpec(s[1..]);
    } else if |s| > 0 && IsBlank(s[|s| - 1]) {
      TrimSpec(s[..|s| - 1]);
    }
  }

  /** A string without blanks at either end is its own trim. */
  lemma TrimUnpadded(s: string)
    requires |s| > 0 ==> !IsBlank(s[0]) && !IsBlank(s[|s| - 1])
    ensures Trim(s) == s
  {
  }

  /** Trimming twice is trimming once. */
  lemma TrimIdempotent(s: string)
    ensures Trim(Trim(s)) == Trim(s)
  {
    TrimSpec(s);
    TrimUnpadded(Trim(s));
  }

  /** `Character.toLowerCase` restricted to ASCII letters. */
  function ToLower(c: char): (r: char)
    ensures 'A' <= c <= 'Z' ==> 'a' <= r <= 'z'
    ensures !('A' <= c <= 'Z') ==> r == c
  {
    if 'A' <= c <= 'Z' then (c as int + 32) as char else c
  }

  /** `Character.toUpperCase` restricted to ASCII letters. */
  function ToUpper(c: char): (r: char)
    ensures 'a' <= c <= 'z' ==> 'A' <= r <= 'Z'
    ensures !('a' <= c <= 'z') ==> r == c
  {
    if 'a' <= c <= 'z' then (c as int - 32) as char else c
  }

  /** `String.toLowerCase(Locale.ENGLISH)` on ASCII text. */
  function LowerCase(s: string): (r: string)
    ensures |r| == |s|
    ensures forall i :: 0 <= i < |s| ==> r[i] == ToLower(s[i])
  {
    seq(|s|, i requires 0 <= i < |s| => ToLower(s[i]))
  }

  /** `String.toUpperCase(Locale.ENGLISH)` on ASCII text. */
  function UpperCase(s: string): (r: string)
    ensures |r| == |s|
    ensures forall i :: 0 <= i < |s| ==> r[i] == ToUpper(s[i])
  {
    seq(|s|, i requires 0 <= i < |s| => ToUpper(s[i]))
  }

  /** `String.equalsIgnoreCase` on ASCII text: same length, equal code units after case folding. */
  predicate EqualsIgnoreCase(a: string, b: string) {
    LowerCase(a) == LowerCase(b)
  }

  /** Upper-casing is idempotent. */
  lemma UpperCaseIdempotent(s: string)
    ensures UpperCase(UpperCase(s)) == UpperCase(s)
  {
  }

  /** Case-insensitive equality does not see the case of either argument. */
  lemma EqualsIgnoreCaseUpper(a: string, b: string)
    ensures EqualsIgnoreCase(a, b) <==> EqualsIgnoreCase(UpperCase(a), b)
  {
    assert LowerCase(UpperCase(a)) == LowerCase(a);
  }

  predicate StartsWith(s: string, prefix: string) {
    |prefix| <= |s| && s[..|prefix|] == prefix
  }
}
