/**
 * Stat names (scraper.ts:127-132): which stats mark team- or period-level
 * rows, and how a stat is canonicalised.
 */
module StatName {
  import opened JsText
  import opened TitleRegex

  /** `stat.match(/Inning|Half|Game/i)`: the row is a period-level market. */
  predicate PeriodLevel(stat: string) {
    FoldIncludes(stat, "inning") || FoldIncludes(stat, "half") || FoldIncludes(stat, "game")
  }

  /**
   * The period-level test, stated position by position: some index of the
   * stat starts "inning", "half" or "game" in any ASCII letter case.
   */
  lemma PeriodLevelIff(stat: string)
    ensures PeriodLevel(stat) <==>
              exists i :: FoldMatchAt(stat, "inning", i) || FoldMatchAt(stat, "half", i) || FoldMatchAt(stat, "game", i)
  {
    FoldIncludesIff(stat, "inning");
    FoldIncludesIff(stat, "half");
    FoldIncludesIff(stat, "game");
  }

  /** `stat.replace(/^Total\s+/i, '')`: "Total" in any letter case at the start, with the whitespace after it, is removed. */
  function StripTotal(stat: string): (r: string)
    ensures |r| <= |stat| && r == stat[|stat| - |r|..]
    ensures !(TotalWordAt(stat, 0) && 5 < |stat| && IsSpace(stat[5])) ==> r == stat
    ensures TotalWordAt(stat, 0) && 5 < |stat| && IsSpace(stat[5]) ==>
              |r| < |stat| - 5 && AllSpace(stat[5..|stat| - |r|]) && (|r| == 0 || !IsSpace(r[0]))
  {
    if TotalWordAt(stat, 0) && 5 < |stat| && IsSpace(stat[5]) then stat[WsRunEnd(stat, 5)..] else stat
  }

  /** The four names a stat can be canonicalised to. */
  const Canonical: set<string> := {"Strikeouts", "Hits", "Runs", "Bases"}

  /**
   * scraper.ts:128-132 as written: strip "Total", trim, then four `if`s in
   * a row, each one testing the value the previous ones left.
   */
  function NormalizeStat(stat: string): (r: string)
    ensures r in Canonical || r == Trim(StripTotal(stat))
  {
    var s0 := Trim(StripTotal(stat));
    var s1 := if LowerIncludes(s0, "strikeout") then "Strikeouts" else s0;
    var s2 := if LowerIncludes(s1, "hit") then "Hits" else s1;
    var s3 := if LowerIncludes(s2, "run") then "Runs" else s2;
    if LowerIncludes(s3, "base") then "Bases" else s3
  }

  /** The first keyword present, in the order strikeout, hit, run, base, picks the name; otherwise the text is kept. */
  function ByPriority(s: string): string {
    if LowerIncludes(s, "strikeout") then "Strikeouts"
    else if LowerIncludes(s, "hit") then "Hits"
    else if LowerIncludes(s, "run") then "Runs"
    else if LowerIncludes(s, "base") then "Bases"
    else s
  }

  lemma LowerStrikeouts()
    ensures JsLowerString("Strikeouts") == "strikeouts"
  {
    var l := JsLowerString("Strikeouts");
    assert l[0] == 's';
  }

  // One lemma per keyword: each evaluates a literal string on its own, which
  // keeps every proof small; one lemma for all three keywords runs out of
  // resource.

  lemma StrikeoutsLacksHit()
    ensures !Includes("strikeouts", "hit")
  {
    MissingCharExcludes("strikeouts", "hit", 0);
  }

  lemma StrikeoutsLacksRun()
    ensures !Includes("strikeouts", "run")
  {
    MissingCharExcludes("strikeouts", "run", 2);
  }

  lemma StrikeoutsLacksBase()
    ensures !Includes("strikeouts", "base")
  {
    MissingCharExcludes("strikeouts", "base", 0);
  }

  lemma StrikeoutsLacksLaterKeywords()
    ensures !LowerIncludes("Strikeouts", "hit") && !LowerIncludes("Strikeouts", "run")
    ensures !LowerIncludes("Strikeouts", "base")
  {
    LowerStrikeouts();
    StrikeoutsLacksHit();
    StrikeoutsLacksRun();
    StrikeoutsLacksBase();
  }

  lemma HitsLacksLaterKeywords()
    ensures !LowerIncludes("Hits", "run") && !LowerIncludes("Hits", "base")
  {
    assert JsLowerString("Hits") == "hits";
    MissingCharExcludes("hits", "run", 0);
    MissingCharExcludes("hits", "base", 0);
  }

  lemma RunsLacksLaterKeywords()
    ensures !LowerIncludes("Runs", "base")
  {
    assert JsLowerString("Runs") == "runs";
    MissingCharExcludes("runs", "base", 0);
  }

  /** The chain of `if`s at scraper.ts:129-132 picks the first keyword present, in priority order. */
  lemma NormalizeStatByPriority(stat: string)
    ensures NormalizeStat(stat) == ByPriority(Trim(StripTotal(stat)))
  {
    StrikeoutsLacksLaterKeywords();
    HitsLacksLaterKeywords();
    RunsLacksLaterKeywords();
  }

  /** A stat with no "Total" prefix and no whitespace at its ends reaches the keyword tests unchanged. */
  lemma PlainStatUnchanged(s: string)
    requires |s| > 0 && !IsSpace(s[0]) && !IsSpace(s[|s| - 1])
    requires AsciiLower(s[0]) != 't'
    ensures Trim(StripTotal(s)) == s
  {
    if |s| >= 5 {
      assert AsciiFold(s[..5])[0] == AsciiLower(s[0]);
    }
    assert LeadingSpace(s) == 0;
    assert TrimEnd(s) == s;
  }

  /** The four canonical names are fixed points of the normalisation. */
  lemma CanonicalNamesAreFixed()
    ensures NormalizeStat("Strikeouts") == "Strikeouts" && NormalizeStat("Hits") == "Hits"
    ensures NormalizeStat("Runs") == "Runs" && NormalizeStat("Bases") == "Bases"
  {
    StrikeoutsIsFixed();
    HitsIsFixed();
    RunsIsFixed();
    BasesIsFixed();
  }

  lemma FixedWhenPlain(n: string)
    requires Trim(StripTotal(n)) == n && ByPriority(n) == n
    ensures NormalizeStat(n) == n
  {
    NormalizeStatByPriority(n);
  }

  lemma StrikeoutsIsFixed()
    ensures NormalizeStat("Strikeouts") == "Strikeouts"
  {
    PlainStatUnchanged("Strikeouts");
    StrikeoutsByPriority();
    FixedWhenPlain("Strikeouts");
  }

  lemma StrikeoutsByPriority()
    ensures ByPriority("Strikeouts") == "Strikeouts"
  {
    LowerStrikeouts();
    assert StartsWith("strikeouts", "strikeout");
  }

  lemma HitsIsFixed()
    ensures NormalizeStat("Hits") == "Hits"
  {
    PlainStatUnchanged("Hits");
    HitsByPriority();
    FixedWhenPlain("Hits");
  }

  lemma HitsByPriority()
    ensures ByPriority("Hits") == "Hits"
  {
    assert JsLowerString("Hits") == "hits";
    MissingCharExcludes("hits", "strikeout", 4);
    assert StartsWith("hits", "hit");
  }

  lemma RunsIsFixed()
    ensures NormalizeStat("Runs") == "Runs"
  {
    PlainStatUnchanged("Runs");
    RunsByPriority();
    FixedWhenPlain("Runs");
  }

  lemma RunsByPriority()
    ensures ByPriority("Runs") == "Runs"
  {
    assert JsLowerString("Runs") == "runs";
    MissingCharExcludes("runs", "strikeout", 4);
    MissingCharExcludes("runs", "hit", 0);
    assert StartsWith("runs", "run");
  }

  lemma BasesIsFixed()
    ensures NormalizeStat("Bases") == "Bases"
  {
    PlainStatUnchanged("Bases");
    BasesByPriority();
    FixedWhenPlain("Bases");
  }

  lemma LowerBases()
    ensures JsLowerString("Bases") == "bases"
  {
    var l := JsLowerString("Bases");
    assert l[0] == 'b';
  }

  lemma BasesLacksEarlierKeywords()
    ensures !Includes("bases", "strikeout") && !Includes("bases", "hit") && !Includes("bases", "run")
  {
    MissingCharExcludes("bases", "strikeout", 4);
    MissingCharExcludes("bases", "hit", 0);
    MissingCharExcludes("bases", "run", 0);
  }

  lemma BasesByPriority()
    ensures ByPriority("Bases") == "Bases"
  {
    LowerBases();
    BasesLacksEarlierKeywords();
    assert StartsWith("bases", "base");
  }
}
