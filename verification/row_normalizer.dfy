/**
 * The extraction closure run inside the page (scraper.ts:92-147): each
 * expanded row is turned into at most one `RawProp`, independently of the
 * other rows. The row's DOM is reduced to the texts the closure reads.
 */
module RowNormalizer {
  import opened Options
  import opened JsText
  import opened TitleRegex
  import opened OverLine
  import opened StatName
  import opened Props
  import opened TitleFacts

  /** A `button.market-btn`: the text of its label element and of its price element, when present. */
  datatype Button = Button(labelText: Option<string>, priceText: Option<string>)

  /**
   * An expanded `Event.Row`: the text of its title element when present, its
   * market buttons in document order, and the ISO time `new Date()` gives
   * when the row's record is built (scraper.ts:141).
   */
  datatype Row = Row(titleText: Option<string>, buttons: seq<Button>, clock: string)

  /** `titleSpan?.textContent?.trim() || ''` (scraper.ts:98). */
  function TitleOf(row: Row): (t: string)
    ensures row.titleText.None? ==> t == ""
    ensures row.titleText.Some? ==>
              var s := row.titleText.value;
              && LeadingSpace(s) + |t| <= |s|
              && t == s[LeadingSpace(s)..LeadingSpace(s) + |t|]
              && AllSpace(s[LeadingSpace(s) + |t|..])
    ensures t == "" <==> row.titleText.None? || AllSpace(row.titleText.value)
    ensures |t| > 0 ==> !IsSpace(t[0]) && !IsSpace(t[|t| - 1])
  {
    var s := row.titleText.GetOr("");
    TrimEmptyIffSpace(s);
    var t := Trim(s);
    t
  }

  /** `priceElem?.textContent?.trim() || '0'`, then parsed (scraper.ts:123-126). */
  function OddsOf(price: Option<string>): (o: Odds)
    ensures o == Zero <==> price.None? || AllSpace(price.value)
    ensures o.Quoted? ==> price.Some? && o.text == Trim(price.value)
    ensures o.Quoted? ==> |o.text| > 0 && !IsSpace(o.text[0]) && !IsSpace(o.text[|o.text| - 1])
  {
    match price
    case None => Zero
    case Some(t) =>
      TrimEmptyIffSpace(t);
      if Trim(t) == "" then Zero else Quoted(Trim(t))
  }

  /** A row whose player is missing or the team placeholder, or whose stat is period-level, is not a player prop (scraper.ts:127). */
  predicate Dropped(s: Split) {
    s.player == "" || s.player == "Team" || PeriodLevel(s.stat)
  }

  /** The record one row yields (scraper.ts:96-143); `None` when the row is skipped. */
  function Normalize(row: Row, league: string): (r: Option<RawProp>)
    ensures |row.buttons| < 2 ==> r.None?
    ensures r.Some? ==> r.value.site == Site && r.value.market == league && r.value.timestamp == row.clock
    ensures r.Some? ==> r.value.stat in Canonical || r.value.stat == Trim(r.value.stat)
  {
    var split := ParseTitle(TitleOf(row));
    if split.None? || |row.buttons| < 2 || Dropped(split.value) then None
    else
      var over := row.buttons[0];
      var under := row.buttons[1];
      TrimIdempotent(StripTotal(split.value.stat));
      Some(RawProp(
        Trim(split.value.player),
        NormalizeStat(split.value.stat),
        LineValue(over.labelText.GetOr("")),
        OddsOf(over.priceText),
        OddsOf(under.priceText),
        league,
        Site,
        row.clock))
  }

  /** The records of a page's rows, in row order, each row contributing zero or one (scraper.ts:94-146). */
  function Extract(rows: seq<Row>, league: string): (r: seq<RawProp>)
    ensures |r| <= |rows|
    ensures forall p :: p in r <==> exists i :: 0 <= i < |rows| && Normalize(rows[i], league) == Some(p)
  {
    FilterMap(row => Normalize(row, league), rows)
  }

  /**
   * Every record a page yields passed the check at scraper.ts:127: it comes
   * from a row whose title split has a player that is neither empty nor
   * "Team" and a stat that is not period-level, and it carries that player
   * trimmed and that stat canonicalised.
   */
  lemma ExtractProvenance(rows: seq<Row>, league: string, p: RawProp)
    requires p in Extract(rows, league)
    ensures exists i, s :: 0 <= i < |rows| && ParseTitle(TitleOf(rows[i])) == Some(s) &&
              s.player != "" && s.player != "Team" && !PeriodLevel(s.stat) &&
              p.player == Trim(s.player) && p.stat == NormalizeStat(s.stat)
  {
    var i :| 0 <= i < |rows| && Normalize(rows[i], league) == Some(p);
    var s := KeptSplit(rows[i], league, p);
    assert 0 <= i < |rows| && ParseTitle(TitleOf(rows[i])) == Some(s);
  }

  /** The split a kept row was built from. */
  lemma KeptSplit(row: Row, league: string, p: RawProp) returns (s: Split)
    requires Normalize(row, league) == Some(p)
    ensures ParseTitle(TitleOf(row)) == Some(s) && !Dropped(s)
    ensures p.player == Trim(s.player) && p.stat == NormalizeStat(s.stat)
  {
    s := ParseTitle(TitleOf(row)).value;
  }

  // ---------------------------------------------------------------------
  // Rows are independent

  /** The records of two runs of rows are the records of each, in order. */
  lemma ExtractAppend(a: seq<Row>, b: seq<Row>, league: string)
    ensures Extract(a + b, league) == Extract(a, league) + Extract(b, league)
  {
    FilterMapAppend(row => Normalize(row, league), a, b);
  }

  /** Replacing one row changes only that row's contribution; the per-row `try` (scraper.ts:96, 144) keeps the others. */
  lemma RowIndependence(rows: seq<Row>, i: nat, row: Row, league: string)
    requires i < |rows|
    ensures Extract(rows[i := row], league) ==
              Extract(rows[..i], league) + Extract([row], league) + Extract(rows[i + 1..], league)
  {
    assert rows[i := row] == rows[..i] + [row] + rows[i + 1..];
    ExtractAppend(rows[..i] + [row], rows[i + 1..], league);
    ExtractAppend(rows[..i], [row], league);
  }

  // ---------------------------------------------------------------------
  // What a row yields, stated with the title's text

  /** The record built from a row that passed every check, with the given player and stat. */
  function Built(row: Row, league: string, player: string, stat: string): RawProp
    requires |row.buttons| >= 2
  {
    RawProp(player, NormalizeStat(stat), LineValue(row.buttons[0].labelText.GetOr("")),
            OddsOf(row.buttons[0].priceText), OddsOf(row.buttons[1].priceText), league, Site, row.clock)
  }

  lemma TrimOfTrimmed(s: string)
    requires |s| > 0 ==> !IsSpace(s[0]) && !IsSpace(s[|s| - 1])
    ensures Trim(s) == s
  {
    if |s| > 0 {
      assert LeadingSpace(s) == 0;
      assert TrimEnd(s) == s;
    }
  }

  /** Once the title is split, the row yields a record iff it has both buttons and the split is not dropped. */
  lemma NormalizeSplit(row: Row, league: string, s: Split)
    requires ParseTitle(TitleOf(row)) == Some(s)
    ensures Normalize(row, league).Some? <==> |row.buttons| >= 2 && !Dropped(s)
    ensures Normalize(row, league).Some? ==>
              Normalize(row, league) == Some(Built(row, league, Trim(s.player), s.stat))
  {
  }

  /**
   * A single-line title with a `(` and a later `)`: the row yields a record
   * iff it has both buttons, the text before the first `(` (less the
   * whitespace before it) is neither empty nor "Team", and the text up to
   * the next `)` is not period-level. The record carries that player, the
   * canonical stat, the OVER label's line and both prices.
   */
  lemma BracketRow(row: Row, league: string, p: nat, q: nat)
    requires NoLineTerminator(TitleOf(row))
    requires FirstParenPair(TitleOf(row), p, q)
    ensures var t := TitleOf(row);
            var player := TrimEnd(t[..p]);
            Normalize(row, league).Some? <==>
              |row.buttons| >= 2 && player != "" && player != "Team" && !PeriodLevel(t[p + 1..q])
    ensures var t := TitleOf(row);
            Normalize(row, league).Some? ==>
              Normalize(row, league) == Some(Built(row, league, TrimEnd(t[..p]), t[p + 1..q]))
  {
    var t := TitleOf(row);
    BracketMatchSpec(t);
    var player := TrimEnd(t[..p]);
    if |player| > 0 {
      assert player[0] == t[0];
    }
    TrimOfTrimmed(player);
    NormalizeSplit(row, league, Split(player, t[p + 1..q]));
  }

  /** A title's first "Total" separator never follows whitespace: the run it belongs to starts there. */
  lemma FirstTotalSepAfterText(t: string, k: nat)
    requires FirstTotalSep(t, k)
    requires |t| > 0 && !IsSpace(t[0])
    ensures 0 < k && !IsSpace(t[k - 1])
  {
    if IsSpace(t[k - 1]) {
      assert WsRunEnd(t, k - 1) == WsRunEnd(t, k);
      assert TotalSepAt(t, k - 1);
    }
  }

  lemma TotalTitle(t: string, k: nat)
    requires NoLineTerminator(t)
    requires !HasParenPair(t)
    requires FirstTotalSep(t, k)
    ensures ParseTitle(t) == Some(Split(t[..k], t[StatStart(t, k)..]))
  {
    BracketMatchSpec(t);
    TotalMatchSpec(t);
  }

  /**
   * A single-line title with no `(`...`)` pair but with whitespace, "Total"
   * and whitespace: the row yields a record iff it has both buttons, the
   * text before the first such separator is not "Team", and the text after
   * it is not period-level.
   */
  lemma TotalRow(row: Row, league: string, k: nat)
    requires NoLineTerminator(TitleOf(row))
    requires !HasParenPair(TitleOf(row))
    requires FirstTotalSep(TitleOf(row), k)
    ensures var t := TitleOf(row);
            Normalize(row, league).Some? <==>
              |row.buttons| >= 2 && t[..k] != "Team" && !PeriodLevel(t[StatStart(t, k)..])
    ensures var t := TitleOf(row);
            Normalize(row, league).Some? ==>
              Normalize(row, league) == Some(Built(row, league, t[..k], t[StatStart(t, k)..]))
  {
    var t := TitleOf(row);
    TotalTitle(t, k);
    FirstTotalSepAfterText(t, k);
    TrimOfTrimmed(t[..k]);
    NormalizeSplit(row, league, Split(t[..k], t[StatStart(t, k)..]));
  }

  /** A single-line title that fits neither pattern yields nothing (scraper.ts:112). */
  lemma UnmatchedRow(row: Row, league: string)
    requires NoLineTerminator(TitleOf(row))
    requires !HasParenPair(TitleOf(row))
    requires forall k: nat :: !TotalSepAt(TitleOf(row), k)
    ensures Normalize(row, league).None?
  {
    BracketMatchSpec(TitleOf(row));
    TotalMatchSpec(TitleOf(row));
  }
}
