/**
 * The two regular expressions the scraper uses to split a row title into a
 * player and a stat (scraper.ts:100 and scraper.ts:106), as a small
 * backtracking matcher that follows how a JavaScript engine runs them:
 *
 *   Bracket:  /(.*?)\s*\((.*?)\)/
 *   Total:    /(.*?)\s+Total\s+(.*)/i
 *
 * `String.prototype.match` tries every start position from left to right;
 * at each start the lazy first group grows one character at a time (never
 * across a line terminator) until the rest of the pattern matches there.
 * The rest of the pattern is the "tail" of the pattern. Greedy `\s*`/`\s+`
 * take the whole whitespace run first and give characters back one at a
 * time.
 */
module TitleRegex {
  import opened Options
  import opened JsText

  datatype Pattern = Bracket | TotalWord

  /** The player and stat groups of a successful match. */
  datatype Split = Split(player: string, stat: string)

  /** Where a match put its groups: group 1 is t[start..playerEnd], group 2 is t[statStart..statEnd]. */
  datatype Hit = Hit(start: nat, playerEnd: nat, statStart: nat, statEnd: nat)

  /** Group 2 of a tail match: t[statStart..statEnd]. */
  datatype Tail = Tail(statStart: nat, statEnd: nat)

  predicate TailIn(t: string, k: nat, r: Tail) {
    k < r.statStart <= r.statEnd <= |t|
  }

  predicate HitIn(t: string, h: Hit) {
    h.start <= h.playerEnd < h.statStart <= h.statEnd <= |t|
  }

  /** The end of the line that position `k` is on. */
  function LineEnd(t: string, k: nat): (e: nat)
    requires k <= |t|
    ensures k <= e <= |t|
    ensures forall m :: k <= m < e ==> !IsLineTerminator(t[m])
    ensures e == |t| || IsLineTerminator(t[e])
    decreases |t| - k
  {
    if k < |t| && !IsLineTerminator(t[k]) then LineEnd(t, k + 1) else k
  }

  // ---------------------------------------------------------------------
  // Bracket tail: \s*\((.*?)\)

  /** The lazy `(.*?)\)` from `i`: the index of the first `)`, unless a line terminator or the end comes first. */
  function CloseParen(t: string, i: nat): (q: Option<nat>)
    requires i <= |t|
    ensures q.Some? ==> i <= q.value < |t| && t[q.value] == ')'
    ensures q.Some? ==> forall m :: i <= m < q.value ==> t[m] != ')' && !IsLineTerminator(t[m])
    ensures (forall m :: i <= m < |t| ==> !IsLineTerminator(t[m])) ==>
              (q.None? <==> forall m :: i <= m < |t| ==> t[m] != ')')
    decreases |t| - i
  {
    if i == |t| || IsLineTerminator(t[i]) then None
    else if t[i] == ')' then Some(i)
    else CloseParen(t, i + 1)
  }

  /** `\((.*?)\)` with `\s*` having consumed t[k..j], retreating `j` towards `k` on failure. */
  function OpenFrom(t: string, k: nat, j: nat): (r: Option<Tail>)
    requires k <= j <= |t|
    ensures r.Some? ==> TailIn(t, k, r.value)
    decreases j - k
  {
    if j < |t| && t[j] == '(' && CloseParen(t, j + 1).Some? then
      Some(Tail(j + 1, CloseParen(t, j + 1).value))
    else if j == k then None
    else OpenFrom(t, k, j - 1)
  }

  // ---------------------------------------------------------------------
  // Total tail: \s+Total\s+(.*)   (case-insensitive)

  /** "Total" in any ASCII letter case at `j`. */
  predicate TotalWordAt(t: string, j: nat) {
    j + 5 <= |t| && AsciiFold(t[j..j + 5]) == "total"
  }

  /**
   * `Total\s+(.*)` with the first `\s+` having consumed t[k..j], retreating
   * `j` towards `k + 1` on failure. The second `\s+` keeps its whole run:
   * `(.*)` then matches the rest of the line, and it matches even nothing.
   */
  function TotalFrom(t: string, k: nat, j: nat): (r: Option<Tail>)
    requires k < j <= |t|
    ensures r.Some? ==> TailIn(t, k, r.value)
    decreases j - k
  {
    if TotalWordAt(t, j) && j + 5 < |t| && IsSpace(t[j + 5]) then
      var m := WsRunEnd(t, j + 5);
      Some(Tail(m, LineEnd(t, m)))
    else if j == k + 1 then None
    else TotalFrom(t, k, j - 1)
  }

  // ---------------------------------------------------------------------
  // The matcher

  /** The rest of pattern `p` after its lazy first group, tried at `k`. */
  function TailAt(p: Pattern, t: string, k: nat): (r: Option<Tail>)
    requires k <= |t|
    ensures r.Some? ==> TailIn(t, k, r.value)
  {
    match p
    case Bracket => OpenFrom(t, k, WsRunEnd(t, k))
    case TotalWord =>
      var j := WsRunEnd(t, k);
      if j == k then None else TotalFrom(t, k, j)
  }

  /** The lazy first group: t[s..k], grown one character at a time until the tail matches. */
  function Lazy(p: Pattern, t: string, s: nat, k: nat): (r: Option<Hit>)
    requires s <= k <= |t|
    ensures r.Some? ==> HitIn(t, r.value) && r.value.start == s && k <= r.value.playerEnd
    ensures r.Some? ==> forall m :: k <= m < r.value.playerEnd ==> !IsLineTerminator(t[m])
    decreases |t| - k
  {
    match TailAt(p, t, k)
    case Some(tl) => Some(Hit(s, k, tl.statStart, tl.statEnd))
    case None =>
      if k < |t| && !IsLineTerminator(t[k]) then Lazy(p, t, s, k + 1) else None
  }

  /** Start positions tried from `s` onwards; the leftmost that matches wins. */
  function Search(p: Pattern, t: string, s: nat): (r: Option<Hit>)
    requires s <= |t|
    ensures r.Some? ==> HitIn(t, r.value) && s <= r.value.start
    ensures r.Some? ==> forall m :: r.value.start <= m < r.value.playerEnd ==> !IsLineTerminator(t[m])
    decreases |t| - s
  {
    match Lazy(p, t, s, s)
    case Some(h) => Some(h)
    case None => if s == |t| then None else Search(p, t, s + 1)
  }

  /**
   * `t.match(p)`, reduced to its two capture groups. The groups are pieces
   * of the title with at least the separator between them, and the player
   * group never spans a line terminator, since `.` does not match one.
   */
  function Match(p: Pattern, t: string): (r: Option<Split>)
    ensures r.Some? ==> |r.value.player| + |r.value.stat| < |t|
    ensures r.Some? ==> NoLineTerminator(r.value.player)
  {
    match Search(p, t, 0)
    case None => None
    case Some(h) => Some(Split(t[h.start..h.playerEnd], t[h.statStart..h.statEnd]))
  }

  /**
   * On any title, line terminators included, the groups of a match are
   * slices of the title taken where the search put them: the player group
   * first, then at least one separator character, then the stat group.
   */
  lemma MatchIsSlices(p: Pattern, t: string)
    ensures Match(p, t).Some? ==>
              exists h :: HitIn(t, h) &&
                Match(p, t).value == Split(t[h.start..h.playerEnd], t[h.statStart..h.statEnd])
  {
    if Search(p, t, 0).Some? {
      var h := Search(p, t, 0).value;
      assert HitIn(t, h);
    }
  }

  /** scraper.ts:99-114: the bracket pattern first, the Total pattern only when it fails. */
  function ParseTitle(t: string): Option<Split> {
    if Match(Bracket, t).Some? then Match(Bracket, t) else Match(TotalWord, t)
  }
}
