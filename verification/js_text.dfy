/**
 * The JavaScript string primitives the scraper relies on: the `\s` and
 * `trim()` whitespace set, line terminators (what `.` in a regular
 * expression refuses), `trim()`, `includes()`, `toLowerCase()` and the
 * ASCII-only case folding a non-Unicode `/i` regular expression uses.
 * Strings are sequences of characters.
 */
module JsText {

  /** The characters `.` in a JavaScript regular expression does not match. */
  predicate IsLineTerminator(c: char) {
    c == '\n' || c == '\r' || c == '\U{2028}' || c == '\U{2029}'
  }

  /** JavaScript WhiteSpace or LineTerminator: what `\s` matches and `trim()` removes. */
  predicate IsSpace(c: char) {
    || c == '\t' || c == '\U{B}' || c == '\U{C}' || c == ' '
    || c == '\U{A0}' || c == '\U{FEFF}' || c == '\U{1680}'
    || ('\U{2000}' <= c <= '\U{200A}')
    || c == '\U{202F}' || c == '\U{205F}' || c == '\U{3000}'
    || IsLineTerminator(c)
  }

  /** What `\d` matches. */
  predicate IsDigit(c: char) {
    '0' <= c <= '9'
  }

  predicate NoLineTerminator(s: string) {
    forall i :: 0 <= i < |s| ==> !IsLineTerminator(s[i])
  }

  predicate AllSpace(s: string) {
    forall i :: 0 <= i < |s| ==> IsSpace(s[i])
  }

  /** The end of the run of whitespace that starts at `k`. */
  function WsRunEnd(s: string, k: nat): (j: nat)
    requires k <= |s|
    ensures k <= j <= |s|
    ensures forall m :: k <= m < j ==> IsSpace(s[m])
    ensures j == |s| || !IsSpace(s[j])
    decreases |s| - k
  {
    if k < |s| && IsSpace(s[k]) then WsRunEnd(s, k + 1) else k
  }

  /** `String.prototype.trimEnd`. */
  function TrimEnd(s: string): (r: string)
    ensures |r| <= |s| && r == s[..|r|]
    ensures forall i :: |r| <= i < |s| ==> IsSpace(s[i])
    ensures |r| > 0 ==> !IsSpace(r[|r| - 1])
  {
    if |s| > 0 && IsSpace(s[|s| - 1]) then TrimEnd(s[..|s| - 1]) else s
  }

  /** The number of whitespace characters `s` starts with. */
  function LeadingSpace(s: string): (n: nat)
    ensures n <= |s|
    ensures forall i :: 0 <= i < n ==> IsSpace(s[i])
    ensures n < |s| ==> !IsSpace(s[n])
  {
    WsRunEnd(s, 0)
  }

  /** `String.prototype.trim`: the slice of `s` between its leading and trailing whitespace. */
  function Trim(s: string): (r: string)
    ensures LeadingSpace(s) + |r| <= |s|
    ensures r == s[LeadingSpace(s)..LeadingSpace(s) + |r|]
    ensures forall i :: LeadingSpace(s) + |r| <= i < |s| ==> IsSpace(s[i])
    ensures |r| > 0 ==> !IsSpace(r[0]) && !IsSpace(r[|r| - 1])
  {
    var a := s[LeadingSpace(s)..];
    var r := TrimEnd(a);
    assert forall i :: LeadingSpace(s) + |r| <= i < |s| ==> s[i] == a[i - LeadingSpace(s)];
    r
  }

  /** Trimming leaves nothing exactly when the text is all whitespace. */
  lemma TrimEmptyIffSpace(s: string)
    ensures Trim(s) == "" <==> AllSpace(s)
  {
  }

  /** Trimming twice is trimming once. */
  lemma TrimIdempotent(s: string)
    ensures Trim(Trim(s)) == Trim(s)
  {
    var t := Trim(s);
    if |t| > 0 {
      assert LeadingSpace(t) == 0;
      assert TrimEnd(t) == t;
    }
  }

  /** `s` starts with `n`. */
  predicate StartsWith(s: string, n: string) {
    |n| <= |s| && s[..|n|] == n
  }

  /** `String.prototype.includes`, scanning left to right. */
  predicate Includes(s: string, n: string)
    decreases |s|
  {
    StartsWith(s, n) || (|s| > 0 && Includes(s[1..], n))
  }

  /** `n` occurs in `s` at index `i`. */
  predicate OccursAt(s: string, n: string, i: int) {
    0 <= i && i + |n| <= |s| && s[i..i + |n|] == n
  }

  /** The scan agrees with "`n` occurs somewhere in `s`", in both directions. */
  lemma {:induction false} IncludesIff(s: string, n: string)
    ensures Includes(s, n) <==> exists i :: OccursAt(s, n, i)
    decreases |s|
  {
    if StartsWith(s, n) {
      assert OccursAt(s, n, 0);
    } else if |s| > 0 {
      IncludesIff(s[1..], n);
      if exists i :: OccursAt(s, n, i) {
        var i :| OccursAt(s, n, i);
        assert i != 0;
        assert OccursAt(s[1..], n, i - 1);
      }
      if Includes(s[1..], n) {
        var i :| OccursAt(s[1..], n, i);
        assert OccursAt(s, n, i + 1);
      }
    } else {
      assert forall i :: OccursAt(s, n, i) ==> i == 0 && |n| == 0;
    }
  }

  /** A string lacking one of the characters of `n` does not include `n`. */
  lemma MissingCharExcludes(s: string, n: string, m: nat)
    requires m < |n|
    requires n[m] !in s
    ensures !Includes(s, n)
  {
    IncludesIff(s, n);
    forall i | 0 <= i && i + |n| <= |s|
      ensures !OccursAt(s, n, i)
    {
      assert s[i..i + |n|][m] == s[i + m];
      assert s[i + m] in s;
    }
  }

  /** The folding a JavaScript `/i` regular expression without the `u` flag applies: ASCII letters only. */
  function AsciiLower(c: char): (r: char)
    ensures 'A' <= c <= 'Z' ==> r as int == c as int + 32
    ensures !('A' <= c <= 'Z') ==> r == c
  {
    if 'A' <= c <= 'Z' then (c as int + 32) as char else c
  }

  function AsciiFold(s: string): (r: string)
    ensures |r| == |s|
    ensures forall i :: 0 <= i < |s| ==> r[i] == AsciiLower(s[i])
  {
    seq(|s|, i requires 0 <= i < |s| => AsciiLower(s[i]))
  }

  /**
   * `toLowerCase()` as far as ASCII letters are concerned: ASCII capitals
   * and U+212A KELVIN SIGN lower-case to ASCII. Other characters are kept;
   * U+0130 really becomes "i" followed by U+0307. A keyword could use that
   * "i" only by ending on it or by going on to U+0307, and no searched
   * keyword ends in "i" or contains U+0307, so keeping U+0130 changes no
   * answer of `LowerIncludes`.
   */
  function JsLower(c: char): (r: char)
    ensures c == '\U{212A}' ==> r == 'k'
    ensures c != '\U{212A}' ==> r == AsciiLower(c)
  {
    if c == '\U{212A}' then 'k' else AsciiLower(c)
  }

  function JsLowerString(s: string): (r: string)
    ensures |r| == |s|
    ensures forall i :: 0 <= i < |s| ==> r[i] == JsLower(s[i])
  {
    seq(|s|, i requires 0 <= i < |s| => JsLower(s[i]))
  }

  /** `s.toLowerCase().includes(n)`, for a lower-case ASCII keyword `n`. */
  predicate LowerIncludes(s: string, n: string) {
    Includes(JsLowerString(s), n)
  }

  /** Whether the `/n/i` regular expression matches somewhere in `s`, for a lower-case ASCII `n`. */
  predicate FoldIncludes(s: string, n: string) {
    Includes(AsciiFold(s), n)
  }

  /** `/n/i` matches at index `i`: each character there, ASCII-folded, is the keyword's. */
  predicate FoldMatchAt(s: string, n: string, i: int) {
    0 <= i && i + |n| <= |s| && forall j :: 0 <= j < |n| ==> AsciiLower(s[i + j]) == n[j]
  }

  /** Folding the whole text and scanning agrees with matching case-blind at some index. */
  lemma FoldIncludesIff(s: string, n: string)
    ensures FoldIncludes(s, n) <==> exists i :: FoldMatchAt(s, n, i)
  {
    var f := AsciiFold(s);
    IncludesIff(f, n);
    forall i | 0 <= i && i + |n| <= |s|
      ensures OccursAt(f, n, i) <==> FoldMatchAt(s, n, i)
    {
      var w := f[i..i + |n|];
      assert forall j :: 0 <= j < |n| ==> w[j] == AsciiLower(s[i + j]);
    }
  }
}
