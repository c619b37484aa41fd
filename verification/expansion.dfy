/**
 * The `flatMap` at scraper.ts:149-172: every record a row yields becomes two
 * bets, its OVER side followed by its UNDER side, each carrying the other
 * side's price as `oppOdds`.
 */
module Expansion {
  import opened Props

  /** The OVER side of a proposition (scraper.ts:150-160). */
  function OverBet(p: RawProp): (b: PropBet)
    ensures b.side == OVER && b.site == Site
    ensures p.site == Site ==> RawOf(b) == p
  {
    PropBet(p.player, p.stat, p.line, OVER, p.overOdds, p.underOdds, p.market, Site, p.timestamp)
  }

  /** The UNDER side of a proposition (scraper.ts:161-171). */
  function UnderBet(p: RawProp): (b: PropBet)
    ensures MirrorPair(OverBet(p), b)
  {
    PropBet(p.player, p.stat, p.line, UNDER, p.underOdds, p.overOdds, p.market, Site, p.timestamp)
  }

  /** Two bets that are the OVER and UNDER sides of one proposition. */
  predicate MirrorPair(o: PropBet, u: PropBet) {
    && o.side == OVER && u.side == UNDER
    && o.player == u.player && o.stat == u.stat && o.line == u.line
    && o.odds == u.oppOdds && o.oppOdds == u.odds
    && o.market == u.market && o.timestamp == u.timestamp
    && o.site == Site && u.site == Site
  }

  /** The `i`-th pair of `bets` (positions 2i and 2i+1) exists and mirrors. */
  predicate PairAt(bets: seq<PropBet>, i: nat) {
    2 * i + 1 < |bets| && MirrorPair(bets[2 * i], bets[2 * i + 1])
  }

  /** A bet list made of mirrored OVER/UNDER pairs, and nothing else. */
  predicate Paired(bets: seq<PropBet>) {
    |bets| % 2 == 0 && forall i: nat :: i < |bets| / 2 ==> PairAt(bets, i)
  }

  /** `gameProps.flatMap(prop => [over, under])`. */
  function Expand(raws: seq<RawProp>): (r: seq<PropBet>)
    ensures |r| == 2 * |raws| && |r| % 2 == 0
    ensures forall i :: 0 <= i < |raws| ==> r[2 * i] == OverBet(raws[i]) && r[2 * i + 1] == UnderBet(raws[i])
  {
    if |raws| == 0 then []
    else
      var rest := Expand(raws[1..]);
      var r := [OverBet(raws[0]), UnderBet(raws[0])] + rest;
      assert forall i :: 1 <= i < |raws| ==> raws[i] == raws[1..][i - 1] && r[2 * i] == rest[2 * (i - 1)];
      r
  }

  /** The record a bet was made from, read off its OVER side. */
  function RawOf(over: PropBet): RawProp {
    RawProp(over.player, over.stat, over.line, over.odds, over.oppOdds, over.market, over.site, over.timestamp)
  }

  /** One record per pair, rebuilt from the pair's first bet. */
  function Collapse(bets: seq<PropBet>): (r: seq<RawProp>)
    requires |bets| % 2 == 0
    ensures |r| == |bets| / 2
    ensures forall i :: 0 <= i < |r| ==> r[i] == RawOf(bets[2 * i])
    decreases |bets|
  {
    if |bets| == 0 then []
    else
      var rest := Collapse(bets[2..]);
      var r := [RawOf(bets[0])] + rest;
      assert forall i :: 1 <= i < |r| ==> r[i] == rest[i - 1] && bets[2 * i] == bets[2..][2 * (i - 1)];
      r
  }

  /** Every expansion is a list of mirrored pairs. */
  lemma ExpandPaired(raws: seq<RawProp>)
    ensures Paired(Expand(raws))
  {
    var r := Expand(raws);
    forall i: nat | i < |r| / 2
      ensures PairAt(r, i)
    {
      assert r[2 * i] == OverBet(raws[i]);
    }
  }

  /** Collapsing an expansion gives back the records, when they already carry the one site. */
  lemma {:induction false} CollapseExpand(raws: seq<RawProp>)
    requires forall i :: 0 <= i < |raws| ==> raws[i].site == Site
    ensures Collapse(Expand(raws)) == raws
  {
    if |raws| > 0 {
      var e := Expand(raws);
      var tail := Expand(raws[1..]);
      assert e == [OverBet(raws[0]), UnderBet(raws[0])] + tail;
      assert e[2..] == tail;
      CollapseExpand(raws[1..]);
      assert RawOf(OverBet(raws[0])) == raws[0];
      assert raws == [raws[0]] + raws[1..];
    }
  }

  /** A mirrored pair is rebuilt from the record read off its OVER side. */
  lemma MirrorRebuilt(o: PropBet, u: PropBet)
    requires MirrorPair(o, u)
    ensures OverBet(RawOf(o)) == o && UnderBet(RawOf(o)) == u
  {
  }

  /** A list of mirrored pairs is the expansion of its collapse. */
  lemma {:induction false} ExpandCollapsePaired(bets: seq<PropBet>)
    requires Paired(bets)
    ensures Expand(Collapse(bets)) == bets
    decreases |bets|
  {
    if |bets| > 0 {
      var rest := bets[2..];
      assert Paired(rest) by {
        forall i: nat | i < |rest| / 2
          ensures PairAt(rest, i)
        {
          assert PairAt(bets, i + 1);
          assert rest[2 * i] == bets[2 * i + 2] && rest[2 * i + 1] == bets[2 * i + 3];
        }
      }
      ExpandCollapsePaired(rest);
      assert PairAt(bets, 0);
      MirrorRebuilt(bets[0], bets[1]);
      var c := Collapse(bets);
      assert c == [RawOf(bets[0])] + Collapse(rest);
      assert c[1..] == Collapse(rest);
      assert bets == [bets[0], bets[1]] + rest;
    }
  }

  /** An even-length bet list is the expansion of its collapse exactly when it is made of mirrored pairs. */
  lemma ExpandCollapse(bets: seq<PropBet>)
    requires |bets| % 2 == 0
    ensures Expand(Collapse(bets)) == bets <==> Paired(bets)
  {
    if Paired(bets) {
      ExpandCollapsePaired(bets);
    } else {
      ExpandPaired(Collapse(bets));
    }
  }

  /** Expanding two lists one after the other is expanding their concatenation. */
  lemma {:induction false} ExpandAppend(a: seq<RawProp>, b: seq<RawProp>)
    ensures Expand(a + b) == Expand(a) + Expand(b)
  {
    if |a| == 0 {
      assert a + b == b;
    } else {
      assert (a + b)[0] == a[0];
      assert (a + b)[1..] == a[1..] + b;
      ExpandAppend(a[1..], b);
    }
  }
}
