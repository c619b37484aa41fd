/**
 * The betting line read from the OVER button's text (scraper.ts:119-120,
 * 136): the first group of `/Over\s+(\d+\.?\d*)/`, or "0" when the text
 * does not match, turned into a number by `parseFloat`.
 */
module OverLine {
  import opened Options
  import opened JsText

  /** The end of the run of digits that starts at `k`. */
  function DigitRunEnd(t: string, k: nat): (d: nat)
    requires k <= |t|
    ensures k <= d <= |t|
    ensures forall m :: k <= m < d ==> IsDigit(t[m])
    ensures d == |t| || !IsDigit(t[d])
    decreases |t| - k
  {
    if k < |t| && IsDigit(t[k]) then DigitRunEnd(t, k + 1) else k
  }

  /** Where the greedy `\d+\.?\d*` starting at digit `j` ends; nothing follows it in the pattern, so no backtracking. */
  function NumberEnd(t: string, j: nat): (e: nat)
    requires j < |t| && IsDigit(t[j])
    ensures j < e <= |t|
  {
    var d := DigitRunEnd(t, j);
    if d < |t| && t[d] == '.' then DigitRunEnd(t, d + 1) else d
  }

  /** The captured number: t[start..end]. */
  datatype Capture = Capture(start: nat, end: nat)

  /** `(\d+...)` with `\s+` having consumed t[k..j], retreating `j` towards `k + 1` on failure. */
  function DigitsFrom(t: string, k: nat, j: nat): (r: Option<Capture>)
    requires k < j <= |t|
    ensures r.Some? ==> k < r.value.start < r.value.end <= |t|
    decreases j - k
  {
    if j < |t| && IsDigit(t[j]) then Some(Capture(j, NumberEnd(t, j)))
    else if j == k + 1 then None
    else DigitsFrom(t, k, j - 1)
  }

  /** The whole pattern tried at start position `s`. */
  function OverAt(t: string, s: nat): (r: Option<Capture>)
    requires s <= |t|
    ensures r.Some? ==> s + 4 < r.value.start < r.value.end <= |t|
  {
    if s + 4 <= |t| && t[s..s + 4] == "Over" then
      var j := WsRunEnd(t, s + 4);
      if j == s + 4 then None else DigitsFrom(t, s + 4, j)
    else None
  }

  /** Start positions tried from `s` onwards; the leftmost that matches wins. */
  function OverSearch(t: string, s: nat): (r: Option<Capture>)
    requires s <= |t|
    ensures r.Some? ==> s + 4 < r.value.start < r.value.end <= |t|
    decreases |t| - s
  {
    match OverAt(t, s)
    case Some(c) => Some(c)
    case None => if s == |t| then None else OverSearch(t, s + 1)
  }

  /**
   * `text.match(/Over\s+(\d+\.?\d*)/)?.[1] || '0'` (scraper.ts:120): what
   * `parseFloat` receives is always decimal text, and "0" when nothing matched.
   */
  function LineText(text: string): (r: string)
    ensures IsDecimalText(r) || r == "0"
    ensures OverSearch(text, 0).None? ==> r == "0"
  {
    match OverSearch(text, 0)
    case None => "0"
    case Some(c) =>
      CaptureIsNumber(text, 0);
      text[c.start..c.end]
  }

  // ---------------------------------------------------------------------
  // parseFloat of the captured text, as an exact decimal

  /** Text shaped like `\d+\.?\d*`. */
  predicate IsDecimalText(s: string) {
    exists d :: 0 < d <= |s| && AllDigits(s[..d]) &&
      (d == |s| || (s[d] == '.' && AllDigits(s[d + 1..])))
  }

  predicate AllDigits(s: string) {
    forall i :: 0 <= i < |s| ==> IsDigit(s[i])
  }

  function DigitValue(c: char): (v: nat)
    requires IsDigit(c)
    ensures v <= 9
  {
    c as int - '0' as int
  }

  /** The value of a run of decimal digits, most significant first. */
  function DigitsValue(s: string): nat
    requires AllDigits(s)
  {
    if |s| == 0 then 0 else 10 * DigitsValue(s[..|s| - 1]) + DigitValue(s[|s| - 1])
  }

  /** The value of the digits after a decimal point. */
  function FractionValue(s: string): (v: real)
    requires AllDigits(s)
    ensures 0.0 <= v <= 1.0
  {
    if |s| == 0 then 0.0 else (DigitValue(s[0]) as real + FractionValue(s[1..])) / 10.0
  }

  /** The number a `\d+\.?\d*` text denotes (what `parseFloat` reads, before rounding to a double). */
  function DecimalValue(s: string): (v: real)
    requires AllDigits(s) || IsDecimalText(s)
    ensures v >= 0.0
  {
    var d := DigitRunEnd(s, 0);
    DigitsValue(s[..d]) as real +
      (if d < |s| && s[d] == '.' && AllDigits(s[d + 1..]) then FractionValue(s[d + 1..]) else 0.0)
  }

  /** The line of a prop: `parseFloat(overLine)` (scraper.ts:136), from the label text ("" when the text is absent). */
  function LineValue(text: string): (v: real)
    ensures v >= 0.0
    ensures OverSearch(text, 0).None? ==> v == 0.0
  {
    assert DigitRunEnd("0", 0) == 1 && "0"[..1] == "0";
    DecimalValue(LineText(text))
  }

  lemma {:induction false} CaptureIsNumber(t: string, s: nat)
    requires s <= |t|
    requires OverSearch(t, s).Some?
    ensures IsDecimalText(t[OverSearch(t, s).value.start..OverSearch(t, s).value.end])
    decreases |t| - s
  {
    if OverAt(t, s).Some? {
      var j := WsRunEnd(t, s + 4);
      DigitsFromIsNumber(t, s + 4, j);
    } else {
      CaptureIsNumber(t, s + 1);
    }
  }

  lemma {:induction false} DigitsFromIsNumber(t: string, k: nat, j: nat)
    requires k < j <= |t|
    requires DigitsFrom(t, k, j).Some?
    ensures IsDecimalText(t[DigitsFrom(t, k, j).value.start..DigitsFrom(t, k, j).value.end])
    decreases j - k
  {
    if j < |t| && IsDigit(t[j]) {
      NumberIsDecimal(t, j);
    } else {
      DigitsFromIsNumber(t, k, j - 1);
    }
  }

  lemma NumberIsDecimal(t: string, j: nat)
    requires j < |t| && IsDigit(t[j])
    ensures IsDecimalText(t[j..NumberEnd(t, j)])
  {
    var s := t[j..NumberEnd(t, j)];
    var d := DigitRunEnd(t, j) - j;
    assert AllDigits(s[..d]);
    if d < |s| {
      assert s[d + 1..] == t[d + j + 1..NumberEnd(t, j)];
    }
  }

  // ---------------------------------------------------------------------
  // What the pattern matches

  /** "Over", at least one whitespace character, then a digit, at `s`. */
  predicate OverLineAt(t: string, s: nat) {
    && s + 4 <= |t| && t[s..s + 4] == "Over"
    && var j := WsRunEnd(t, s + 4);
       s + 4 < j < |t| && IsDigit(t[j])
  }

  /** Giving back whitespace to `\s+` never helps: a digit is not whitespace. */
  lemma {:induction false} DigitsFromRunEnd(t: string, k: nat, j: nat)
    requires k < j <= |t|
    requires forall m :: k <= m < j ==> IsSpace(t[m])
    ensures DigitsFrom(t, k, j) ==
              if j < |t| && IsDigit(t[j]) then Some(Capture(j, NumberEnd(t, j))) else None
    decreases j - k
  {
    if k + 1 < j {
      DigitsFromRunEnd(t, k, j - 1);
    }
  }

  lemma OverAtSpec(t: string, s: nat)
    requires s <= |t|
    ensures OverAt(t, s).Some? <==> OverLineAt(t, s)
    ensures OverLineAt(t, s) ==>
              var j := WsRunEnd(t, s + 4);
              OverAt(t, s) == Some(Capture(j, NumberEnd(t, j)))
  {
    if s + 4 <= |t| && t[s..s + 4] == "Over" {
      var j := WsRunEnd(t, s + 4);
      if j != s + 4 {
        DigitsFromRunEnd(t, s + 4, j);
      }
    }
  }

  /** The search from `s` finds the leftmost `OverLineAt` position at or after `s`. */
  lemma {:induction false} OverSearchNone(t: string, s: nat)
    requires s <= |t|
    ensures OverSearch(t, s).None? <==> forall s' :: s <= s' <= |t| ==> !OverLineAt(t, s')
    decreases |t| - s
  {
    OverAtSpec(t, s);
    if !OverLineAt(t, s) && s < |t| {
      OverSearchNone(t, s + 1);
    }
  }

  lemma {:induction false} OverSearchFirst(t: string, s: nat, f: nat)
    requires s <= f <= |t| && OverLineAt(t, f)
    requires forall s' :: s <= s' < f ==> !OverLineAt(t, s')
    ensures OverSearch(t, s) == Some(Capture(WsRunEnd(t, f + 4), NumberEnd(t, WsRunEnd(t, f + 4))))
    decreases f - s
  {
    OverAtSpec(t, s);
    if s < f {
      OverSearchFirst(t, s + 1, f);
    }
  }

  /**
   * The line text is the number after the leftmost "Over" that is followed by
   * whitespace and a digit, read as `\d+` then an optional `.` and `\d*`;
   * it is "0" when no such "Over" exists.
   */
  lemma LineTextSpec(text: string)
    ensures (forall s :: 0 <= s <= |text| ==> !OverLineAt(text, s)) ==> LineText(text) == "0"
    ensures forall f :: 0 <= f <= |text| && OverLineAt(text, f) && (forall s' :: 0 <= s' < f ==> !OverLineAt(text, s')) ==>
              var j := WsRunEnd(text, f + 4);
              LineText(text) == text[j..NumberEnd(text, j)]
  {
    OverSearchNone(text, 0);
    forall f | 0 <= f <= |text| && OverLineAt(text, f) && (forall s' :: 0 <= s' < f ==> !OverLineAt(text, s'))
      ensures var j := WsRunEnd(text, f + 4); LineText(text) == text[j..NumberEnd(text, j)]
    {
      OverSearchFirst(text, 0, f);
    }
  }

  /**
   * The line is the value of the number after the leftmost "Over" that is
   * followed by whitespace and a digit, and 0 when no such "Over" exists.
   */
  lemma LineValueSpec(text: string)
    ensures (forall s :: 0 <= s <= |text| ==> !OverLineAt(text, s)) ==> LineValue(text) == 0.0
    ensures forall f :: 0 <= f <= |text| && OverLineAt(text, f) && (forall s' :: 0 <= s' < f ==> !OverLineAt(text, s')) ==>
              var j := WsRunEnd(text, f + 4);
              IsDecimalText(text[j..NumberEnd(text, j)]) && LineValue(text) == DecimalValue(text[j..NumberEnd(text, j)])
  {
    OverSearchNone(text, 0);
    forall f | 0 <= f <= |text| && OverLineAt(text, f) && (forall s' :: 0 <= s' < f ==> !OverLineAt(text, s'))
      ensures var j := WsRunEnd(text, f + 4);
              IsDecimalText(text[j..NumberEnd(text, j)]) && LineValue(text) == DecimalValue(text[j..NumberEnd(text, j)])
    {
      LineValueAt(text, f);
    }
  }

  /** The line when the leftmost matching "Over" is at `f`. */
  lemma LineValueAt(text: string, f: nat)
    requires f <= |text| && OverLineAt(text, f) && forall s' :: 0 <= s' < f ==> !OverLineAt(text, s')
    ensures var j := WsRunEnd(text, f + 4);
            IsDecimalText(text[j..NumberEnd(text, j)]) && LineValue(text) == DecimalValue(text[j..NumberEnd(text, j)])
  {
    var j := WsRunEnd(text, f + 4);
    OverSearchFirst(text, 0, f);
    NumberIsDecimal(text, j);
    assert LineText(text) == text[j..NumberEnd(text, j)];
  }

  /** The text "6.5" denotes six and a half. */
  lemma DecimalExample()
    ensures DecimalValue("6.5") == 6.5
  {
    var v := "6.5";
    assert DigitRunEnd(v, 0) == 1;
    assert v[..1] == "6";
    assert v[2..] == "5";
    assert FractionValue("5") == 0.5;
  }

  /** The label "Over 6.5" captures "6.5". */
  lemma OverLabelText()
    ensures LineText("Over 6.5") == "6.5"
  {
    var t := "Over 6.5";
    assert WsRunEnd(t, 4) == 5;
    assert OverLineAt(t, 0);
    OverSearchFirst(t, 0, 0);
    assert NumberEnd(t, 5) == 8 by {
      assert DigitRunEnd(t, 5) == 6;
      assert DigitRunEnd(t, 7) == 8;
    }
    assert OverSearch(t, 0) == Some(Capture(5, 8));
    assert t[5..8] == "6.5";
  }

  /** A label "Over 6.5" gives the line 6.5. */
  lemma OverExample()
    ensures LineValue("Over 6.5") == 6.5
  {
    OverLabelText();
    DecimalExample();
  }

  /** An UNDER-style label has no "Over" and gives the line 0. */
  lemma UnderExample()
    ensures LineValue("Under 6.5") == 0.0
  {
    var u := "Under 6.5";
    forall s | 0 <= s <= |u|
      ensures !OverLineAt(u, s)
    {
      if s + 4 <= |u| {
        assert u[s..s + 4][0] == u[s];
        assert s == 0 || s == 1 || s == 2 || s == 3 || s == 4 || s == 5;
      }
    }
    OverSearchNone(u, 0);
  }
}
