/**
 * The crawl of one league (scraper.ts:16-203): open a tab, read the game
 * links off the league page, visit each game in order, extract and expand
 * its rows, and append them to the running list. The browser is reduced to
 * what each step reports: whether it threw, and the rows a game page shows.
 */
module Crawl {
  import opened Options
  import opened Props
  import opened RowNormalizer
  import opened Expansion

  /** The league the entry point crawls (scraper.ts:18), written into every record's `market`. */
  const League: string := "MLB"

  /** How the visit of one game page went, as far as the list of bets is concerned. */
  datatype GameOutcome =
      /** No prop row appeared within the wait, and the way back succeeded (scraper.ts:61-71). */
    | NoProps
      /** The rows were read, appended, and the way back succeeded (scraper.ts:90-181). */
    | Extracted(rows: seq<Row>)
      /** A step before the append threw (scraper.ts:58-147); `recovered` is whether the wait at scraper.ts:188 then resolved. */
    | FailedBeforeAppend(recovered: bool)
      /** The way back after the append threw (scraper.ts:178-179); `recovered` as above. */
    | FailedAfterAppend(rows: seq<Row>, recovered: bool)

  /** One game anchor on the league page: its `href` attribute (absent or present) and what visiting it gives. */
  datatype Link = Link(href: Option<string>, outcome: GameOutcome)

  /** What the league page gives. */
  datatype IndexPage =
      /** `browser.newPage()` rejected (scraper.ts:22, outside the `try`). */
    | NewPageFailed
      /** A step of scraper.ts:28-40 threw. */
    | IndexFailed
      /** The game anchors, in document order. */
    | Index(links: seq<Link>)

  /** The promise the crawl returns: rejected, or resolved with a list of bets. */
  datatype ScrapeResult = Raised | Returned(bets: seq<PropBet>)

  /** The state of the game loop: still going with the bets so far, or thrown out of it. */
  datatype Progress = Running(acc: seq<PropBet>) | Aborted

  /** JavaScript truthiness of an attribute value: present and not the empty string. */
  predicate Truthy(href: Option<string>) {
    href.Some? && href.value != ""
  }

  /** The filter's test, as a partial map. */
  function KeepTruthy(l: Link): Option<Link> {
    if Truthy(l.href) then Some(l) else None
  }

  /** `.filter(Boolean)` on the anchors' hrefs (scraper.ts:39). */
  function GameLinks(links: seq<Link>): (r: seq<Link>)
    ensures |r| <= |links|
    ensures forall l :: l in r <==> l in links && Truthy(l.href)
  {
    FilterMap(KeepTruthy, links)
  }

  /** The bets a game appends to `allProps` (scraper.ts:174); a failure before the append adds none. */
  function Contribution(o: GameOutcome): (r: seq<PropBet>)
    ensures Paired(r)
    ensures o.Extracted? || o.FailedAfterAppend? ==> |r| <= 2 * |o.rows|
    ensures r != [] ==> o.Extracted? || o.FailedAfterAppend?
  {
    match o
    case Extracted(rows) =>
      ExpandPaired(Extract(rows, League));
      Expand(Extract(rows, League))
    case FailedAfterAppend(rows, _) =>
      ExpandPaired(Extract(rows, League));
      Expand(Extract(rows, League))
    case _ => []
  }

  /** The recovery wait (scraper.ts:188) threw: the error leaves the loop and reaches the outer `catch`. */
  predicate Aborts(o: GameOutcome) {
    (o.FailedBeforeAppend? || o.FailedAfterAppend?) && !o.recovered
  }

  /** One iteration of the loop at scraper.ts:46-190. */
  function Step(pr: Progress, l: Link): (r: Progress)
    ensures r.Aborted? <==> pr.Aborted? || Aborting(l)
    ensures r.Running? ==> pr.Running? && pr.acc <= r.acc && Paired(r.acc[|pr.acc|..])
  {
    match pr
    case Aborted => Aborted
    case Running(acc) =>
      if !Truthy(l.href) then pr
      else if Aborts(l.outcome) then Aborted
      else Running(acc + Contribution(l.outcome))
  }

  /** The loop over the links, left to right. */
  function Loop(pr: Progress, links: seq<Link>): (r: Progress)
    ensures r.Running? ==> pr.Running? && pr.acc <= r.acc
    decreases |links|
  {
    if |links| == 0 then pr else Loop(Step(pr, links[0]), links[1..])
  }

  /** `scrapePinnacleLeagueProps` (scraper.ts:21-203); `page.close()` at scraper.ts:201 has its failure swallowed. */
  function Scrape(page: IndexPage): (r: ScrapeResult)
    ensures r.Raised? <==> page.NewPageFailed?
    ensures page.IndexFailed? ==> r == Returned([])
  {
    match page
    case NewPageFailed => Raised
    case IndexFailed => Returned([])
    case Index(links) =>
      match Loop(Running([]), GameLinks(links))
      case Aborted => Returned([])
      case Running(acc) => Returned(acc)
  }

  // ---------------------------------------------------------------------
  // A reference definition of the result

  /** The link is followed and its recovery wait threw. */
  predicate Aborting(l: Link) {
    Truthy(l.href) && Aborts(l.outcome)
  }

  /** What a followed link contributes; a link the loop skips contributes nothing. */
  function LinkBets(l: Link): seq<PropBet> {
    if Truthy(l.href) then Contribution(l.outcome) else []
  }

  /** Every game's contribution, concatenated in link order. */
  function Collected(links: seq<Link>): seq<PropBet>
    decreases |links|
  {
    if |links| == 0 then [] else LinkBets(links[0]) + Collected(links[1..])
  }

  /** Once out of the loop, the rest of the links change nothing. */
  lemma {:induction false} LoopAborted(links: seq<Link>)
    ensures Loop(Aborted, links) == Aborted
    decreases |links|
  {
    if |links| > 0 {
      LoopAborted(links[1..]);
    }
  }

  /**
   * The loop from a list `acc` ends with `acc` followed by every game's
   * contribution in order, unless some followed link's recovery wait threw.
   */
  lemma {:induction false} LoopSpec(acc: seq<PropBet>, links: seq<Link>)
    ensures Loop(Running(acc), links) ==
              if exists i :: 0 <= i < |links| && Aborting(links[i]) then Aborted
              else Running(acc + Collected(links))
    decreases |links|
  {
    if |links| > 0 {
      var l := links[0];
      var rest := links[1..];
      assert forall i :: 1 <= i < |links| ==> links[i] == rest[i - 1];
      assert forall i :: 0 <= i < |rest| ==> rest[i] == links[i + 1];
      if Aborting(l) {
        LoopAborted(rest);
      } else {
        assert Step(Running(acc), l) == Running(acc + LinkBets(l)) by {
          if !Truthy(l.href) {
            assert acc + [] == acc;
          }
        }
        LoopSpec(acc + LinkBets(l), rest);
        ConcatAssoc(acc, LinkBets(l), Collected(rest));
      }
    }
  }

  /** The collected bets of two runs of links are those of each, in order. */
  lemma {:induction false} CollectedAppend(a: seq<Link>, b: seq<Link>)
    ensures Collected(a + b) == Collected(a) + Collected(b)
    decreases |a|
  {
    if |a| == 0 {
      assert a + b == b;
    } else {
      assert (a + b)[0] == a[0];
      assert (a + b)[1..] == a[1..] + b;
      CollectedAppend(a[1..], b);
      var h, t, u := LinkBets(a[0]), Collected(a[1..]), Collected(b);
      assert Collected(a + b) == h + (t + u);
      ConcatAssoc(h, t, u);
    }
  }

  /** Dropping the links without an href (scraper.ts:39) drops nothing the loop would have used. */
  lemma {:induction false} GameLinksCollected(links: seq<Link>)
    ensures Collected(GameLinks(links)) == Collected(links)
    decreases |links|
  {
    if |links| > 0 {
      assert GameLinks(links) == (if Truthy(links[0].href) then [links[0]] else []) + GameLinks(links[1..]);
      CollectedAppend(if Truthy(links[0].href) then [links[0]] else [], GameLinks(links[1..]));
      GameLinksCollected(links[1..]);
    }
  }

  /** A link aborts the loop after the filter exactly when one did before it. */
  lemma GameLinksAborting(links: seq<Link>)
    ensures (exists i :: 0 <= i < |GameLinks(links)| && Aborting(GameLinks(links)[i])) <==>
            (exists i :: 0 <= i < |links| && Aborting(links[i]))
  {
    var games := GameLinks(links);
    if exists i :: 0 <= i < |games| && Aborting(games[i]) {
      var i :| 0 <= i < |games| && Aborting(games[i]);
      assert games[i] in links;
    }
    if exists i :: 0 <= i < |links| && Aborting(links[i]) {
      var i :| 0 <= i < |links| && Aborting(links[i]);
      assert links[i] in games;
    }
  }

  /**
   * The crawl's result, stated without the loop: it resolves with nothing
   * when some followed game's recovery wait throws; otherwise it resolves
   * with every followed game's bets, in link order.
   */
  lemma ScrapeSpec(page: IndexPage)
    requires page.Index?
    ensures Scrape(page) ==
              if exists i :: 0 <= i < |page.links| && Aborting(page.links[i]) then Returned([])
              else Returned(Collected(page.links))
  {
    var games := GameLinks(page.links);
    LoopSpec([], games);
    GameLinksCollected(page.links);
    GameLinksAborting(page.links);
  }

  /** A game that fails and recovers loses its own bets and nothing else: the per-game `try` (scraper.ts:57, 183). */
  lemma FailureIsolated(links: seq<Link>, i: nat, recovered: Link)
    requires i < |links|
    requires recovered == links[i].(outcome := FailedBeforeAppend(true))
    ensures !Aborting(recovered)
    ensures Collected(links[i := recovered]) == Collected(links[..i]) + Collected(links[i + 1..])
  {
    var rest := links[i + 1..];
    var a, r := Collected(links[..i]), Collected(rest);
    assert links[i := recovered] == links[..i] + ([recovered] + rest);
    CollectedAppend(links[..i], [recovered] + rest);
    CollectedAppend([recovered], rest);
    assert Collected([recovered]) == [] by {
      assert [recovered][1..] == [];
    }
    assert [] + r == r;
  }

  // ---------------------------------------------------------------------
  // The shape of the result

  /** The records of every followed game, in link order, before the expansion. */
  function CollectedRaws(links: seq<Link>): seq<RawProp>
    decreases |links|
  {
    if |links| == 0 then []
    else
      var l := links[0];
      var own := if Truthy(l.href) && (l.outcome.Extracted? || l.outcome.FailedAfterAppend?)
                 then Extract(l.outcome.rows, League) else [];
      own + CollectedRaws(links[1..])
  }

  /** Expanding game by game is expanding all the records at once. */
  lemma {:induction false} CollectedIsExpansion(links: seq<Link>)
    ensures Collected(links) == Expand(CollectedRaws(links))
    decreases |links|
  {
    if |links| > 0 {
      var l := links[0];
      var own := if Truthy(l.href) && (l.outcome.Extracted? || l.outcome.FailedAfterAppend?)
                 then Extract(l.outcome.rows, League) else [];
      assert LinkBets(l) == Expand(own);
      CollectedIsExpansion(links[1..]);
      ExpandAppend(own, CollectedRaws(links[1..]));
    }
  }

  /** Every collected record was built for the crawled league and site. */
  lemma {:induction false} CollectedRawsTagged(links: seq<Link>)
    ensures forall p :: p in CollectedRaws(links) ==> p.market == League && p.site == Site
    decreases |links|
  {
    if |links| > 0 {
      CollectedRawsTagged(links[1..]);
    }
  }

  /** The expansion keeps each record's league and site. */
  lemma ExpandTagged(raws: seq<RawProp>)
    requires forall p :: p in raws ==> p.market == League && p.site == Site
    ensures forall j :: 0 <= j < |Expand(raws)| ==> Expand(raws)[j].market == League && Expand(raws)[j].site == Site
  {
    var e := Expand(raws);
    forall j | 0 <= j < |e|
      ensures e[j].market == League && e[j].site == Site
    {
      var i := j / 2;
      assert raws[i] in raws;
      assert j == 2 * i || j == 2 * i + 1;
    }
  }

  /**
   * Whatever the crawl resolves with is a list of OVER/UNDER pairs of the
   * same propositions, every bet tagged with the league and the site.
   */
  lemma ScrapeShape(page: IndexPage)
    requires Scrape(page).Returned?
    ensures Paired(Scrape(page).bets)
    ensures forall j :: 0 <= j < |Scrape(page).bets| ==>
              Scrape(page).bets[j].market == League && Scrape(page).bets[j].site == Site
  {
    if page.Index? {
      ScrapeSpec(page);
      if !(exists i :: 0 <= i < |page.links| && Aborting(page.links[i])) {
        var raws := CollectedRaws(page.links);
        CollectedIsExpansion(page.links);
        CollectedRawsTagged(page.links);
        ExpandPaired(raws);
        ExpandTagged(raws);
      }
    }
  }
}
