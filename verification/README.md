# ev-scraper: the prop collector and its output step, in Dafny

This project models the deterministic core of a sportsbook player-prop
scraper. The scraper is written in TypeScript with Playwright. The model
covers four parts:

- **Row normaliser.** This is the closure the scraper runs inside each game page. Each table row becomes at most one proposition: player, canonical stat, line, the two prices, league, site and clock reading. The row's title is split with the bracket pattern `(.*?)\s*\((.*?)\)`, or else with `(.*?)\s+Total\s+(.*)` (case-insensitive). Team-level and period-level rows are dropped. The stat is canonicalised by the keyword chain strikeout, hit, run, base. Missing prices and lines become 0.
- **OVER/UNDER expansion.** Every proposition becomes two bets, one per side, and each bet carries the other side's price.
- **Crawl.** The league page gives the game links. The games are visited in order, and their bets are appended to one list. The per-game `try`/`catch` isolates a failing game. A failure inside the outer `try` (scraper.ts:27-199) that escapes the per-game `catch` turns the whole result into the empty list. A failure of `browser.newPage()`, which comes before that `try`, rejects instead.
- **Output step of `main`.** It keeps the parlays with a positive expected value, counts them, takes the first ten, and names the output file `props_<clock>.json`, with the colons of the clock replaced by hyphens.

The browser is never modelled. A row is reduced to the texts the closure
reads. A game page is reduced to what its visit reports: no props, the
rows it showed, or a failure before or after the append, with or without a
successful recovery wait. Clock readings are inputs.

The regular expressions are modelled as small backtracking matchers that
follow the JavaScript semantics:

- the search tries start positions from left to right;
- a lazy group grows one character at a time;
- a greedy `\s*`/`\s+` gives characters back;
- `.` refuses line terminators;
- `\s` is the JavaScript whitespace-and-line-terminator set;
- the `/i` flag folds ASCII letters only (the pattern has no `u` flag).

Lemmas then characterise each matcher declaratively for single-line
titles. The title is trimmed before matching, so a title can only contain
a line terminator in its interior.

Modules, in dependency order:

- `Options`: Option, FilterMap.
- `JsText`: `trim`, `includes`, `toLowerCase`, `\s`.
- `TitleRegex`: the two title matchers.
- `TitleFacts`: what the two title matchers find.
- `OverLine`: the line regex and `parseFloat` of its capture.
- `StatName`: the period-level test and stat canonicalisation.
- `Props`: the records.
- `RowNormalizer`: the per-row closure.
- `Expansion`: the OVER/UNDER `flatMap`.
- `Crawl`: the game loop.
- `RunOutput`: `main`.

## Model

| member | source | states |
|---|---|---|
| JsText.Trim | scraper.ts:98 | `trim()` gives the slice that starts after the leading whitespace run. It neither starts nor ends with whitespace, and only whitespace follows it. |
| JsText.TrimEmptyIffSpace | scraper.ts:123-124 | A trimmed text is empty exactly when the text is all whitespace. This is when `|| '0'` substitutes. |
| JsText.TrimIdempotent | scraper.ts:98 | Trimming twice is trimming once. |
| JsText.IncludesIff | scraper.ts:129-132 | `includes` holds exactly when the needle occurs at some position. |
| JsText.MissingCharExcludes | scraper.ts:129-132 | A needle with a character the text lacks is not included. |
| TitleFacts.LazyFindsFirst | scraper.ts:100 | On a single line, growing the lazy first group stops at the first position where the rest of the pattern matches, and it finds one exactly when one exists. |
| TitleFacts.MatchIsFirstTail | scraper.ts:100-114 | Either pattern matches a single-line title exactly when its tail matches somewhere. Then the first group is the text before the first such position, and the second group is that tail's capture. |
| TitleFacts.BracketMatchSpec | scraper.ts:100-104 | The bracket pattern matches exactly when the title has a `(` with a later `)`. The player is the text before the first `(`, less the whitespace run just before it. The stat is the text between that `(` and the next `)`. |
| TitleFacts.TotalMatchSpec | scraper.ts:105-113 | The Total pattern matches exactly when whitespace, "Total" in any ASCII case and whitespace occur in the title. The player is the text before the first such separator, and the stat is everything after the whitespace that follows "Total". |
| TitleFacts.LazyReaches | scraper.ts:100-106 | On a single line, the lazy first group grows as far as any position where the rest of the pattern matches. |
| TitleFacts.MatchAtFirstTail | scraper.ts:100-106 | At the first position where the tail matches, the groups are the text before it and the tail's capture. |
| TitleFacts.BracketMatchFirst | scraper.ts:100-104 | Given the first `(` and the next `)`, the bracket pattern's groups are the trimmed-end text before the `(` and the text between them. |
| TitleFacts.FirstParenPairExists | scraper.ts:100 | A title with a `(` and a later `)` has a first `(` and a first `)` after it. |
| TitleFacts.FirstParenPairUnique | scraper.ts:100 | That first pair is unique. |
| TitleRegex.Match | scraper.ts:99-106 | On any title, line terminators included, the two groups of a match together are shorter than the title. The player group never spans a line terminator, because `.` does not match one. |
| TitleRegex.MatchIsSlices | scraper.ts:99-106 | On any title, line terminators included, a match's groups are slices of the title: the player group first, then at least one separator character, then the stat group. |
| TitleFacts.ParseTitleSpec | scraper.ts:99-114 | A single-line title is split exactly when it has a `(` with a later `)`, or a Total separator. The bracket pattern decides whenever it has the pair, even if a Total separator is present too. Only otherwise do the player and stat come from the first Total separator. |
| OverLine.LineValue | scraper.ts:120-136 | The line is never negative, and it is 0 when the label has no "Over", whitespace and digit. |
| OverLine.LineValueSpec | scraper.ts:120-136 | The line is the value of the number after the leftmost "Over" that is followed by whitespace and a digit. That number is decimal text, and the line is 0 when no such "Over" exists. |
| OverLine.LineTextSpec | scraper.ts:120 | The captured line is the number after the leftmost "Over" that is followed by whitespace and a digit. The number is read as digits, then an optional `.` and more digits. The capture is "0" when there is no such "Over". |
| OverLine.LineText | scraper.ts:120 | What `parseFloat` receives is always decimal text (digits, then an optional `.` and more digits) or "0". It is "0" when the label has no "Over", whitespace and digit. |
| OverLine.OverExample | scraper.ts:120-136 | "Over 6.5" gives the line 6.5. |
| OverLine.UnderExample | scraper.ts:120-136 | "Under 6.5" gives the line 0. |
| StatName.StripTotal | scraper.ts:128 | The result is a suffix of the stat. It is the stat itself unless the stat starts with "Total" (any ASCII case) and whitespace. In that case "Total" and the whole whitespace run after it are removed. |
| JsText.FoldIncludesIff | scraper.ts:127 | A case-insensitive regex for a lower-case keyword matches exactly when some index of the text starts the keyword, each character compared after ASCII folding. |
| StatName.PeriodLevelIff | scraper.ts:127 | A stat is period-level exactly when some index starts "inning", "half" or "game" in any ASCII letter case. |
| StatName.NormalizeStat | scraper.ts:128-132 | The result is one of the four canonical names, or the stripped and trimmed stat. |
| StatName.NormalizeStatByPriority | scraper.ts:129-132 | The four consecutive `if`s pick the first keyword present, in the order strikeout, hit, run, base. A later test never overrides an earlier one. |
| StatName.CanonicalNamesAreFixed | scraper.ts:129-132 | "Strikeouts", "Hits", "Runs" and "Bases" are each mapped to themselves. |
| StatName.PlainStatUnchanged | scraper.ts:128 | A stat without surrounding whitespace that does not start with `t`/`T` reaches the keyword tests unchanged. |
| RowNormalizer.TitleOf | scraper.ts:98 | The title is the trimmed text of the title element, or "" when the element is missing: the slice after the leading whitespace, with only whitespace after it. It is empty exactly when the element is missing or its text is all whitespace, and otherwise it neither starts nor ends with whitespace. |
| RowNormalizer.OddsOf | scraper.ts:123-126 | A price is the `Zero` constructor (the program's `'0'` fallback) exactly when its element is missing or its text is blank. Otherwise it is `Quoted` with exactly the trimmed text of the price element, which neither starts nor ends with whitespace. |
| RowNormalizer.Normalize | scraper.ts:96-143 | A row with fewer than two market buttons yields nothing. A record carries the site "Pinnacle", the league and the row's clock, and its stat is canonical or trimmed. |
| RowNormalizer.BracketRow | scraper.ts:100-142 | For a bracket title, the row yields a record exactly when it has both buttons, the player is neither empty nor "Team", and the stat is not period-level. The record holds that player, the canonicalised stat, the OVER label's line and both prices. |
| RowNormalizer.TotalRow | scraper.ts:105-142 | For a Total title, the same as BracketRow with the Total pattern's player and stat. |
| RowNormalizer.UnmatchedRow | scraper.ts:111-113 | A title that fits neither pattern yields nothing. |
| RowNormalizer.Extract | scraper.ts:94-146 | A page yields at most one record per row. Each record comes from some row. |
| RowNormalizer.ExtractProvenance | scraper.ts:127-135 | Every record comes from some row whose title split has a player that is neither empty nor "Team" and a stat that is not period-level. The record carries that player trimmed and that stat canonicalised. |
| RowNormalizer.ExtractAppend | scraper.ts:94-146 | The records of two runs of rows are the records of each, in row order. |
| RowNormalizer.RowIndependence | scraper.ts:95-145 | Replacing one row changes only that row's contribution. |
| Expansion.OverBet | scraper.ts:150-160 | The OVER bet is tagged OVER and "Pinnacle". It keeps everything of a record already tagged "Pinnacle": reading it back gives the record. |
| Expansion.UnderBet | scraper.ts:161-171 | The UNDER bet mirrors the OVER bet of the same record. Same player, stat, line, market and timestamp, with the two prices swapped. |
| Expansion.Expand | scraper.ts:149-172 | There are exactly two bets per proposition. Bet 2i is the OVER side of proposition i and bet 2i+1 is its UNDER side. |
| Expansion.ExpandPaired | scraper.ts:149-172 | Every expansion consists of mirrored pairs. A pair shares player, stat, line, market and timestamp. The OVER bet's odds are the UNDER bet's oppOdds and the other way round. Both are tagged with the site. |
| Expansion.Collapse | scraper.ts:149-172 | Reading each pair's OVER bet rebuilds one proposition per pair. |
| Expansion.CollapseExpand | scraper.ts:149-172 | Collapsing an expansion gives the propositions back. |
| Expansion.ExpandCollapsePaired | scraper.ts:149-172 | A list of mirrored pairs is the expansion of its collapse. |
| Expansion.ExpandCollapse | scraper.ts:149-172 | An even-length bet list is the expansion of its collapse exactly when it consists of mirrored pairs. |
| Expansion.ExpandAppend | scraper.ts:149-174 | Expanding two lists in turn is expanding their concatenation. |
| Crawl.GameLinks | scraper.ts:38-40 | The filtered links are exactly the links with a non-empty href. |
| Crawl.Scrape | scraper.ts:21-203 | The crawl rejects only when the tab cannot be opened. A failure while reading the league page resolves with the empty list. |
| Crawl.Contribution | scraper.ts:149-174 | A game adds mirrored OVER/UNDER pairs, at most two bets per row. A game that had no props or failed before the append adds nothing. |
| Crawl.Step | scraper.ts:46-189 | An iteration leaves the loop exactly when the loop had already been left, or the link is followed and its recovery wait throws. Otherwise it only appends, and what it appends is mirrored pairs. |
| Crawl.Loop | scraper.ts:46-190 | A loop that is still running at the end was running at the start, and it has only appended to the starting list. |
| Crawl.LoopSpec | scraper.ts:43-190 | The loop only appends at the end. It ends with the starting list followed by every followed game's contribution in link order, unless some game's recovery wait threw. |
| Crawl.LoopAborted | scraper.ts:183-199 | Once a recovery wait has thrown, no later game changes the outcome. |
| Crawl.ScrapeSpec | scraper.ts:21-203 | The crawl resolves with the empty list if some followed game's recovery wait throws. Otherwise it resolves with every followed game's bets, concatenated in link order. |
| Crawl.CollectedAppend | scraper.ts:46-190 | The bets of two runs of games are those of each, in order. |
| Crawl.GameLinksCollected | scraper.ts:38-51 | The filter removes only links the loop would have skipped at line 48. |
| Crawl.GameLinksAborting | scraper.ts:38-51 | A throwing game survives the filter. |
| Crawl.FailureIsolated | scraper.ts:57-189 | A game that fails and recovers loses its own bets and nothing else. |
| Crawl.CollectedIsExpansion | scraper.ts:149-174 | Expanding game by game is the same as expanding all the records at once. |
| Crawl.CollectedRawsTagged | scraper.ts:139-140 | Every collected record carries the league and the site. |
| Crawl.ScrapeShape | scraper.ts:149-195 | Whatever the crawl resolves with consists of mirrored OVER/UNDER pairs, each tagged "MLB" and "Pinnacle". |
| RunOutput.PlusEVParlays | main.ts:18 | The filtered list holds exactly the parlays with ev > 0. |
| RunOutput.PlusEVAppend | main.ts:18 | Filtering keeps the original order: filtering two runs is filtering each. |
| RunOutput.PlusEVIsSubsequence | main.ts:18 | The k-th kept parlay is the parlay at the k-th position with ev > 0. The positions are increasing and cover every such parlay. |
| RunOutput.ListsSnoc | main.ts:18 | A new last parlay's position joins the kept positions exactly when its ev > 0. |
| RunOutput.PicksSnoc | main.ts:18 | A new last parlay is appended to the filtered list exactly when its ev > 0. |
| RunOutput.PlusEVSnoc | main.ts:18 | Appending a parlay appends it to the filtered list exactly when its ev > 0. |
| RunOutput.PositionsSnoc | main.ts:18 | Appending a parlay adds its position to the positive positions exactly when its ev > 0, and that position is new. |
| RunOutput.PlusEVCount | main.ts:18-26 | The count is the number of positions that hold a parlay with ev > 0. |
| RunOutput.TopParlays | main.ts:27 | The top list is the first min(10, n) parlays. |
| RunOutput.Analysis | main.ts:18-28 | The count is the filtered length. The top list has at most ten parlays and at most `count` parlays, each taken from the input with ev > 0. |
| RunOutput.TopIsPrefix | main.ts:27 | The top list is a prefix of the filtered list, and it is all of that list when the count is at most ten. |
| RunOutput.ReplaceColons | main.ts:33 | The result has the same length as the input. Each `:` becomes `-`, and every other character is unchanged. |
| RunOutput.ReplaceColonsClean | main.ts:33 | The result has no colon, and replacing again changes nothing. |
| RunOutput.ReplaceColonsExample | main.ts:33 | "2025-06-01T18:05:09.123Z" becomes "2025-06-01T18-05-09.123Z". |
| RunOutput.FileName | main.ts:33-35 | The name is "props_", then the replaced clock, then ".json". It has 11 more characters than the clock and no colon. |
| RunOutput.Main | main.ts:10-45 | A file is written exactly when the crawl resolves. Its name comes from the file clock and its timestamp from the report clock. Its props are the scraped list unchanged. Its count is the number of positive-EV parlays, and its top list is the first ten, or fewer, of the positive-EV parlays in order. |

## Left out

- Playwright plumbing: navigation, the waits for selectors and load states, the click that expands collapsed rows (scraper.ts:76-88), the settle delays and the logging. A game's visit is summarised by the `GameOutcome` datatype, and the rows are those the selection at scraper.ts:94 returns.
- Timeouts and timing: they decide which outcome a visit has, not what an outcome contributes.
- The numeric value of a quoted price: `parseFloat(parseFloat(text).toFixed(3))` is double-precision rounding. A quoted price is kept as its trimmed text. Non-numeric text gives NaN in the program, not 0, and the model does not claim otherwise.
- RowNormalizer.OddsOf: a quoted text that parses to 0, such as "0", "0.000" or "0.0004", is kept as `Quoted` with its text. It is not identified with `Zero`, although the program gives the number 0 for both. This follows from leaving the numeric parse out.
- OverLine.LineValue: the line is the exact decimal value of the captured digits. Rounding to a double is not modelled.
- The stat canonicalisation models `toLowerCase()` for ASCII letters and the Kelvin sign (U+212A), which lowercases to `k`. It leaves every other non-ASCII character unchanged. This cannot affect any of the four ASCII keywords except through the Kelvin sign, which is modelled. The lone exception is U+0130, which lowercases to "i" followed by U+0307. A keyword occurrence that used that "i" would either end on it, and no keyword ends in "i", or go on to U+0307, which no keyword contains. The model keeps U+0130 unchanged, and no keyword contains it either, so no answer changes.
- TitleFacts.MatchIsFirstTail, TitleFacts.BracketMatchSpec, TitleFacts.TotalMatchSpec, TitleFacts.ParseTitleSpec, TitleFacts.LazyFindsFirst, TitleFacts.LazyReaches, TitleFacts.MatchAtFirstTail, TitleFacts.BracketMatchFirst, RowNormalizer.BracketRow, RowNormalizer.TotalRow, RowNormalizer.UnmatchedRow: these are stated for titles without a line terminator. `trim()` removes line terminators only at the ends of the title text, so one can remain inside. The matchers themselves handle any title, and `TitleRegex.Match` and `TitleRegex.MatchIsSlices` state what holds for every title.
- The parlay analysis (`analyzeParlays`, `calculateParlayEV`): parlay.ts declares them without bodies, so there is no behaviour to model. Their result is an input to `RunOutput.Main`.
- browser.ts: it only launches Chromium and waits on timers.
- dist/scraper.js: this is compiled output of an older version of the scraper and is not part of this model.
- In main.ts: JSON serialisation, `fs.writeFileSync`, `browser.close` and the process exit on an unhandled error. `new Date().toISOString()` is read twice, and the two readings are inputs.
- The per-row clock reading at scraper.ts:141 is a field of the row.
- `gameCount` and every console message.

## Notes on the program as written

- The outer `catch` at scraper.ts:197-199 turns every later failure into `[]`. But `browser.newPage()` at scraper.ts:22 sits before the `try` at scraper.ts:27, so its failure rejects the promise. `Crawl.Scrape` follows the code: `NewPageFailed` gives `Raised`, and `main` then writes no file.
- Two kinds of failure reach the outer `catch`. One is a recovery wait that throws (scraper.ts:188), which is the `recovered == false` flag on a failed game. The other is a failure while reading the league page (scraper.ts:28-40). The recovery navigation at scraper.ts:186-187 and `page.close()` at scraper.ts:201 have their errors swallowed.
- After `.filter(Boolean)` at scraper.ts:39, the `!href` skip at scraper.ts:48 never fires (`Crawl.GameLinks`). The model keeps it anyway, as written.
