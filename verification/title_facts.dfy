/**
 * What the two title patterns match, stated without the matcher, for titles
 * that hold no line terminator (the title is the trimmed text of a single
 * title element, scraper.ts:98).
 */
module TitleFacts {
  import opened Options
  import opened JsText
  import opened TitleRegex

  // ---------------------------------------------------------------------
  // The matcher in general

  /** `k` is the leftmost position where the tail of `p` matches. */
  predicate FirstTail(p: Pattern, t: string, k: nat) {
    k <= |t| && TailAt(p, t, k).Some? && forall k' :: 0 <= k' < k ==> TailAt(p, t, k').None?
  }

  /** Growing the lazy group from `k` finds the first tail position at or after `k`, as long as no line terminator stops it. */
  lemma LazyFindsFirst(p: Pattern, t: string, s: nat, k: nat)
    requires NoLineTerminator(t)
    requires s <= k <= |t|
    ensures Lazy(p, t, s, k).Some? <==> exists k' :: k <= k' <= |t| && TailAt(p, t, k').Some?
    ensures Lazy(p, t, s, k).Some? ==> LazyHitIsFirst(p, t, k, Lazy(p, t, s, k).value)
  {
    if Lazy(p, t, s, k).Some? {
      LazyFirst(p, t, s, k);
      assert TailAt(p, t, Lazy(p, t, s, k).value.playerEnd).Some?;
    } else if exists k' :: k <= k' <= |t| && TailAt(p, t, k').Some? {
      var k' :| k <= k' <= |t| && TailAt(p, t, k').Some?;
      LazyReaches(p, t, s, k, k');
    }
  }

  /** On a single line, the lazy group grows as far as any position where the tail matches. */
  lemma {:induction false} LazyReaches(p: Pattern, t: string, s: nat, k: nat, k': nat)
    requires NoLineTerminator(t)
    requires s <= k <= k' <= |t|
    requires TailAt(p, t, k').Some?
    ensures Lazy(p, t, s, k).Some?
    decreases k' - k
  {
    if TailAt(p, t, k).None? {
      assert !IsLineTerminator(t[k]);
      LazyReaches(p, t, s, k + 1, k');
    }
  }

  lemma {:induction false} LazyFirst(p: Pattern, t: string, s: nat, k: nat)
    requires NoLineTerminator(t)
    requires s <= k <= |t|
    requires Lazy(p, t, s, k).Some?
    ensures LazyHitIsFirst(p, t, k, Lazy(p, t, s, k).value)
    decreases |t| - k
  {
    if TailAt(p, t, k).None? {
      assert !IsLineTerminator(t[k]);
      LazyFirst(p, t, s, k + 1);
    }
  }

  /** The tail matched at `h.playerEnd` with the groups of `h`, and at no position from `k` to it. */
  predicate LazyHitIsFirst(p: Pattern, t: string, k: nat, h: Hit)
    requires h.playerEnd <= |t|
  {
    && TailAt(p, t, h.playerEnd) == Some(Tail(h.statStart, h.statEnd))
    && forall k' :: k <= k' < h.playerEnd ==> TailAt(p, t, k').None?
  }

  /** With no tail position anywhere, no start position matches (line terminators or not). */
  lemma {:induction false} SearchNone(p: Pattern, t: string, s: nat)
    requires s <= |t|
    requires forall k :: 0 <= k <= |t| ==> TailAt(p, t, k).None?
    ensures Search(p, t, s).None?
    decreases |t| - s
  {
    LazyNone(p, t, s, s);
    if s < |t| {
      SearchNone(p, t, s + 1);
    }
  }

  lemma {:induction false} LazyNone(p: Pattern, t: string, s: nat, k: nat)
    requires s <= k <= |t|
    requires forall k :: 0 <= k <= |t| ==> TailAt(p, t, k).None?
    ensures Lazy(p, t, s, k).None?
    decreases |t| - k
  {
    if k < |t| && !IsLineTerminator(t[k]) {
      LazyNone(p, t, s, k + 1);
    }
  }

  /**
   * On a single-line title a pattern matches iff its tail matches somewhere;
   * the match starts at 0, group 1 runs up to the leftmost tail position and
   * group 2 is the one that tail captured.
   */
  lemma MatchIsFirstTail(p: Pattern, t: string)
    requires NoLineTerminator(t)
    ensures Match(p, t).Some? <==> exists k :: 0 <= k <= |t| && TailAt(p, t, k).Some?
    ensures forall k: nat :: FirstTail(p, t, k) ==>
              var tl := TailAt(p, t, k).value;
              Match(p, t) == Some(Split(t[..k], t[tl.statStart..tl.statEnd]))
  {
    LazyFindsFirst(p, t, 0, 0);
    if Lazy(p, t, 0, 0).None? {
      SearchNone(p, t, 0);
    } else {
      var h := Lazy(p, t, 0, 0).value;
      assert LazyHitIsFirst(p, t, 0, h);
      forall k: nat | FirstTail(p, t, k)
        ensures k == h.playerEnd
      {
      }
    }
  }

  /** The match at a given first tail position. */
  lemma MatchAtFirstTail(p: Pattern, t: string, k: nat)
    requires NoLineTerminator(t)
    requires FirstTail(p, t, k)
    ensures Match(p, t) == Some(Split(t[..k], t[TailAt(p, t, k).value.statStart..TailAt(p, t, k).value.statEnd]))
  {
    MatchIsFirstTail(p, t);
  }

  // ---------------------------------------------------------------------
  // Bracket: /(.*?)\s*\((.*?)\)/

  lemma {:induction false} WsRunEndIs(t: string, k: nat, j: nat)
    requires k <= j <= |t|
    requires forall m :: k <= m < j ==> IsSpace(t[m])
    requires j == |t| || !IsSpace(t[j])
    ensures WsRunEnd(t, k) == j
    decreases j - k
  {
    if k < j {
      WsRunEndIs(t, k + 1, j);
    }
  }

  /** Giving back whitespace to `\s*` never helps: only the end of the run can hold `(`. */
  lemma {:induction false} OpenFromRunEnd(t: string, k: nat, j: nat)
    requires k <= j <= |t|
    requires forall m :: k <= m < j ==> IsSpace(t[m])
    ensures OpenFrom(t, k, j) ==
              if j < |t| && t[j] == '(' && CloseParen(t, j + 1).Some?
              then Some(Tail(j + 1, CloseParen(t, j + 1).value)) else None
    decreases j - k
  {
    if k < j {
      OpenFromRunEnd(t, k, j - 1);
    }
  }

  /** `p` is the first `(` of `t` and `q` the first `)` after it. */
  predicate FirstParenPair(t: string, p: nat, q: nat) {
    && p < q < |t| && t[p] == '(' && t[q] == ')'
    && (forall m :: 0 <= m < p ==> t[m] != '(')
    && (forall m :: p < m < q ==> t[m] != ')')
  }

  predicate HasParenPair(t: string) {
    exists p, q :: 0 <= p < q < |t| && t[p] == '(' && t[q] == ')'
  }

  /** The index of the first `c` at or after `i`. */
  function IndexOf(t: string, c: char, i: nat): (r: Option<nat>)
    requires i <= |t|
    ensures r.Some? ==> i <= r.value < |t| && t[r.value] == c
    ensures r.Some? ==> forall m :: i <= m < r.value ==> t[m] != c
    ensures r.None? ==> forall m :: i <= m < |t| ==> t[m] != c
    decreases |t| - i
  {
    if i == |t| then None else if t[i] == c then Some(i) else IndexOf(t, c, i + 1)
  }

  lemma FirstParenPairUnique(t: string, p: nat, q: nat, p': nat, q': nat)
    requires FirstParenPair(t, p, q) && FirstParenPair(t, p', q')
    ensures p == p' && q == q'
  {
  }

  lemma FirstParenPairExists(t: string) returns (p: nat, q: nat)
    requires HasParenPair(t)
    ensures FirstParenPair(t, p, q)
  {
    var p1, q1 :| 0 <= p1 < q1 < |t| && t[p1] == '(' && t[q1] == ')';
    p := IndexOf(t, '(', 0).value;
    q := IndexOf(t, ')', p + 1).value;
  }

  /** The tail of the bracket pattern first matches where the whitespace before the first `(` begins. */
  lemma BracketFirstTail(t: string, p: nat, q: nat)
    requires NoLineTerminator(t)
    requires FirstParenPair(t, p, q)
    ensures FirstTail(Bracket, t, |TrimEnd(t[..p])|)
    ensures TailAt(Bracket, t, |TrimEnd(t[..p])|) == Some(Tail(p + 1, q))
  {
    var k0 := |TrimEnd(t[..p])|;
    assert CloseParen(t, p + 1) == Some(q) by {
      var c := CloseParen(t, p + 1);
      assert c.Some?;
      assert !(c.value < q) && !(q < c.value);
    }
    WsRunEndIs(t, k0, p);
    OpenFromRunEnd(t, k0, p);
    forall k | 0 <= k < k0
      ensures TailAt(Bracket, t, k).None?
    {
      var j := WsRunEnd(t, k);
      assert !IsSpace(t[k0 - 1]) by {
        assert t[k0 - 1] == TrimEnd(t[..p])[k0 - 1];
      }
      assert j <= k0 - 1;
      OpenFromRunEnd(t, k, j);
    }
  }

  lemma BracketNoTail(t: string)
    requires NoLineTerminator(t)
    requires !HasParenPair(t)
    ensures forall k :: 0 <= k <= |t| ==> TailAt(Bracket, t, k).None?
  {
    forall k | 0 <= k <= |t|
      ensures TailAt(Bracket, t, k).None?
    {
      var j := WsRunEnd(t, k);
      OpenFromRunEnd(t, k, j);
      if j < |t| && t[j] == '(' {
        assert forall m :: j + 1 <= m < |t| ==> t[m] != ')';
      }
    }
  }

  /**
   * The bracket pattern (scraper.ts:100) matches a single-line title iff it
   * holds a `(` with a `)` somewhere after it. The player is the text before
   * the first `(` less the whitespace just before it; the stat is the text
   * between that `(` and the next `)`.
   */
  lemma BracketMatchSpec(t: string)
    requires NoLineTerminator(t)
    ensures Match(Bracket, t).Some? <==> HasParenPair(t)
    ensures forall p: nat, q: nat :: FirstParenPair(t, p, q) ==>
              Match(Bracket, t) == Some(Split(TrimEnd(t[..p]), t[p + 1..q]))
  {
    if HasParenPair(t) {
      var p0, q0 := FirstParenPairExists(t);
      BracketMatchFirst(t, p0, q0);
      forall p: nat, q: nat | FirstParenPair(t, p, q)
        ensures Match(Bracket, t) == Some(Split(TrimEnd(t[..p]), t[p + 1..q]))
      {
        FirstParenPairUnique(t, p, q, p0, q0);
      }
    } else {
      MatchIsFirstTail(Bracket, t);
      BracketNoTail(t);
    }
  }

  lemma BracketMatchFirst(t: string, p: nat, q: nat)
    requires NoLineTerminator(t)
    requires FirstParenPair(t, p, q)
    ensures Match(Bracket, t) == Some(Split(TrimEnd(t[..p]), t[p + 1..q]))
  {
    var k0 := |TrimEnd(t[..p])|;
    BracketFirstTail(t, p, q);
    MatchAtFirstTail(Bracket, t, k0);
    assert t[..k0] == TrimEnd(t[..p]);
  }

  // ---------------------------------------------------------------------
  // Total: /(.*?)\s+Total\s+(.*)/i

  /**
   * A separator of the Total pattern starts at `k`: `t[k]` is whitespace, the
   * whitespace run from `k` is followed by "Total" in any ASCII letter case,
   * and whitespace follows "Total".
   */
  predicate TotalSepAt(t: string, k: nat) {
    && k < |t| && IsSpace(t[k])
    && var j := WsRunEnd(t, k);
       TotalWordAt(t, j) && j + 5 < |t| && IsSpace(t[j + 5])
  }

  /** Where the stat starts after the separator at `k`: past "Total" and the whitespace run after it. */
  function StatStart(t: string, k: nat): (m: nat)
    requires TotalSepAt(t, k)
    ensures k < m <= |t|
  {
    WsRunEnd(t, WsRunEnd(t, k) + 5)
  }

  predicate FirstTotalSep(t: string, k: nat) {
    TotalSepAt(t, k) && forall k' :: 0 <= k' < k ==> !TotalSepAt(t, k')
  }

  lemma SpaceIsNotTotal(t: string, j: nat)
    requires j < |t| && IsSpace(t[j])
    ensures !TotalWordAt(t, j)
  {
    if j + 5 <= |t| {
      assert AsciiFold(t[j..j + 5])[0] == AsciiLower(t[j]) != 't';
    }
  }

  /** Giving back whitespace to the first `\s+` never helps: "Total" starts with a letter. */
  lemma {:induction false} TotalFromRunEnd(t: string, k: nat, j: nat)
    requires k < j <= |t|
    requires forall m :: k <= m < j ==> IsSpace(t[m])
    ensures TotalFrom(t, k, j) ==
              if TotalWordAt(t, j) && j + 5 < |t| && IsSpace(t[j + 5])
              then Some(Tail(WsRunEnd(t, j + 5), LineEnd(t, WsRunEnd(t, j + 5)))) else None
    decreases j - k
  {
    if k + 1 < j {
      TotalFromRunEnd(t, k, j - 1);
      SpaceIsNotTotal(t, j - 1);
    }
  }

  lemma LineEndSingleLine(t: string, m: nat)
    requires NoLineTerminator(t)
    requires m <= |t|
    ensures LineEnd(t, m) == |t|
  {
  }

  /** The tail of the Total pattern matches at `k` exactly at a separator, and then captures the rest of the title. */
  lemma TotalTailSpec(t: string, k: nat)
    requires NoLineTerminator(t)
    requires k <= |t|
    ensures TailAt(TotalWord, t, k).Some? <==> TotalSepAt(t, k)
    ensures TotalSepAt(t, k) ==> TailAt(TotalWord, t, k) == Some(Tail(StatStart(t, k), |t|))
  {
    var j := WsRunEnd(t, k);
    if j != k {
      TotalFromRunEnd(t, k, j);
      if TotalWordAt(t, j) && j + 5 < |t| && IsSpace(t[j + 5]) {
        LineEndSingleLine(t, WsRunEnd(t, j + 5));
      }
    }
  }

  /** The first separator at or after `k`. */
  function FindTotalSep(t: string, k: nat): (r: Option<nat>)
    requires k <= |t|
    ensures r.Some? ==> k <= r.value < |t| && TotalSepAt(t, r.value)
    ensures r.Some? ==> forall k' :: k <= k' < r.value ==> !TotalSepAt(t, k')
    ensures r.None? ==> forall k' :: k <= k' < |t| ==> !TotalSepAt(t, k')
    decreases |t| - k
  {
    if k == |t| then None else if TotalSepAt(t, k) then Some(k) else FindTotalSep(t, k + 1)
  }

  lemma TotalTails(t: string)
    requires NoLineTerminator(t)
    ensures forall k :: 0 <= k <= |t| ==> (TailAt(TotalWord, t, k).Some? <==> TotalSepAt(t, k))
  {
    forall k | 0 <= k <= |t|
      ensures TailAt(TotalWord, t, k).Some? <==> TotalSepAt(t, k)
    {
      TotalTailSpec(t, k);
    }
  }

  /**
   * The Total pattern (scraper.ts:106) matches a single-line title iff it
   * holds whitespace, "Total" in any letter case, and whitespace again. The
   * player is the text before the first such separator; the stat is all
   * that follows the whitespace after "Total".
   */
  lemma TotalMatchSpec(t: string)
    requires NoLineTerminator(t)
    ensures Match(TotalWord, t).Some? <==> exists k: nat :: TotalSepAt(t, k)
    ensures forall k: nat :: FirstTotalSep(t, k) ==>
              Match(TotalWord, t) == Some(Split(t[..k], t[StatStart(t, k)..]))
  {
    TotalMatchIff(t);
    forall k: nat | FirstTotalSep(t, k)
      ensures Match(TotalWord, t) == Some(Split(t[..k], t[StatStart(t, k)..]))
    {
      TotalFirstSep(t, k);
    }
  }

  lemma TotalMatchIff(t: string)
    requires NoLineTerminator(t)
    ensures Match(TotalWord, t).Some? <==> exists k: nat :: TotalSepAt(t, k)
  {
    MatchIsFirstTail(TotalWord, t);
    TotalTails(t);
    if Match(TotalWord, t).Some? {
      var k :| 0 <= k <= |t| && TailAt(TotalWord, t, k).Some?;
      assert TotalSepAt(t, k);
    }
    if exists k: nat :: TotalSepAt(t, k) {
      var k: nat :| TotalSepAt(t, k);
      assert TailAt(TotalWord, t, k).Some?;
    }
  }

  lemma TotalFirstSep(t: string, k: nat)
    requires NoLineTerminator(t)
    requires FirstTotalSep(t, k)
    ensures Match(TotalWord, t) == Some(Split(t[..k], t[StatStart(t, k)..]))
  {
    forall k' | 0 <= k' < k
      ensures TailAt(TotalWord, t, k').None?
    {
      TotalTailSpec(t, k');
    }
    TotalTailSpec(t, k);
    assert FirstTail(TotalWord, t, k);
    MatchIsFirstTail(TotalWord, t);
    var tl := TailAt(TotalWord, t, k).value;
    assert t[tl.statStart..tl.statEnd] == t[StatStart(t, k)..];
  }

  // ---------------------------------------------------------------------
  // Both patterns together

  /**
   * The title split of scraper.ts:99-114 on a single-line title: the bracket
   * pattern decides whenever the title holds a `(` with a later `)`, even
   * when a Total separator is present too; the Total pattern is tried only
   * otherwise; a title with neither gives no split.
   */
  lemma ParseTitleSpec(t: string)
    requires NoLineTerminator(t)
    ensures ParseTitle(t).Some? <==> HasParenPair(t) || exists k: nat :: TotalSepAt(t, k)
    ensures forall p: nat, q: nat :: FirstParenPair(t, p, q) ==>
              ParseTitle(t) == Some(Split(TrimEnd(t[..p]), t[p + 1..q]))
    ensures !HasParenPair(t) ==> forall k: nat :: FirstTotalSep(t, k) ==>
              ParseTitle(t) == Some(Split(t[..k], t[StatStart(t, k)..]))
  {
    BracketMatchSpec(t);
    TotalMatchSpec(t);
  }
}
