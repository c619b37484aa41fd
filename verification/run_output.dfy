/**
 * The output step of `main` (main.ts:10-45): keep the parlays with a
 * positive expected value, count them, take the first ten, and name the
 * output file after the clock with its colons replaced. The parlay analysis
 * itself has no body in the repository, so its result is an input here.
 */
module RunOutput {
  import opened Options
  import opened Props
  import opened Crawl

  /** `ParlayEVResult` (parlay.ts:3-9). */
  datatype ParlayEVResult = ParlayEVResult(
    ev: real,
    probabilityToWin: real,
    parlayDecimalOdds: real,
    fairParlayOdds: real,
    recommendation: string)

  /** One element of what `analyzeParlays` returns (parlay.ts:15-23). */
  datatype Parlay = Parlay(
    player1: string,
    prop1: string,
    pick1: Side,
    player2: string,
    prop2: string,
    pick2: Side,
    analysis: ParlayEVResult)

  /** `parlayAnalysis` (main.ts:25-28). */
  datatype ParlayAnalysis = ParlayAnalysis(count: nat, topParlays: seq<Parlay>)

  /** The `mlb` object (main.ts:23-29). */
  datatype LeagueReport = LeagueReport(props: seq<PropBet>, parlayAnalysis: ParlayAnalysis)

  /** `finalOutput` (main.ts:21-30). */
  datatype FinalOutput = FinalOutput(timestamp: string, mlb: LeagueReport)

  /** The file `main` writes: its name and the object serialised into it (main.ts:34-37). */
  datatype SavedFile = SavedFile(name: string, content: FinalOutput)

  /** How many parlays the report lists at most (main.ts:27). */
  const TopCount: nat := 10

  predicate PlusEV(p: Parlay) {
    p.analysis.ev > 0.0
  }

  function KeepPlusEV(p: Parlay): Option<Parlay> {
    if PlusEV(p) then Some(p) else None
  }

  /** `parlays.filter(p => p.analysis.ev > 0)` (main.ts:18). */
  function PlusEVParlays(parlays: seq<Parlay>): (r: seq<Parlay>)
    ensures |r| <= |parlays|
    ensures forall p :: p in r <==> p in parlays && PlusEV(p)
  {
    FilterMap(KeepPlusEV, parlays)
  }

  /** The positions of the parlays with a positive expected value. */
  function PlusEVPositions(parlays: seq<Parlay>): set<nat> {
    set i: nat | i < |parlays| && PlusEV(parlays[i])
  }

  predicate Increasing(idx: seq<nat>) {
    forall k, m :: 0 <= k < m < |idx| ==> idx[k] < idx[m]
  }

  /** Filtering two runs is filtering each, in order. */
  lemma PlusEVAppend(a: seq<Parlay>, b: seq<Parlay>)
    ensures PlusEVParlays(a + b) == PlusEVParlays(a) + PlusEVParlays(b)
  {
    FilterMapAppend(KeepPlusEV, a, b);
  }

  /** `idx` lists, in increasing order, exactly the positions of `parlays` holding a parlay with a positive expected value. */
  predicate ListsPlusEV(parlays: seq<Parlay>, idx: seq<nat>) {
    && Increasing(idx)
    && (forall k :: 0 <= k < |idx| ==> idx[k] < |parlays|)
    && (forall i: nat :: i < |parlays| ==> (i in idx <==> PlusEV(parlays[i])))
  }

  /** `r` is the parlays at the positions `idx`, in that order. */
  predicate PicksAt(parlays: seq<Parlay>, idx: seq<nat>, r: seq<Parlay>) {
    |idx| == |r| && forall k :: 0 <= k < |idx| ==> idx[k] < |parlays| && r[k] == parlays[idx[k]]
  }

  /** The position of a new last parlay joins the list exactly when that parlay has a positive expected value. */
  lemma ListsSnoc(init: seq<Parlay>, last: Parlay, prev: seq<nat>)
    requires ListsPlusEV(init, prev)
    ensures ListsPlusEV(init + [last], prev + if PlusEV(last) then [|init|] else [])
  {
    var n := |init|;
    var parlays := init + [last];
    var own := if PlusEV(last) then [n] else [];
    var idx := prev + own;
    forall i: nat | i < |parlays|
      ensures i in idx <==> PlusEV(parlays[i])
    {
      assert (i in idx) == (i in prev || i in own);
      if i < n {
        assert parlays[i] == init[i];
      } else {
        assert n !in prev;
      }
    }
  }

  /** Appending a parlay appends it to the filtered list when it has a positive expected value. */
  lemma PicksSnoc(init: seq<Parlay>, last: Parlay, prev: seq<nat>)
    requires PicksAt(init, prev, PlusEVParlays(init))
    ensures PicksAt(init + [last], prev + (if PlusEV(last) then [|init|] else []), PlusEVParlays(init + [last]))
  {
    var parlays := init + [last];
    var idx := prev + if PlusEV(last) then [|init|] else [];
    var r, rp := PlusEVParlays(parlays), PlusEVParlays(init);
    PlusEVSnoc(init, last);
    forall k | 0 <= k < |idx|
      ensures idx[k] < |parlays| && r[k] == parlays[idx[k]]
    {
      if k < |prev| {
        assert idx[k] == prev[k] && r[k] == rp[k];
        assert parlays[prev[k]] == init[prev[k]];
      }
    }
  }

  /**
   * The filter keeps exactly the parlays with a positive expected value, in
   * their original order: its k-th element is the parlay at the k-th such
   * position.
   */
  lemma {:induction false} PlusEVIsSubsequence(parlays: seq<Parlay>) returns (idx: seq<nat>)
    ensures |idx| == |PlusEVParlays(parlays)|
    ensures Increasing(idx)
    ensures forall k :: 0 <= k < |idx| ==> idx[k] < |parlays| && PlusEVParlays(parlays)[k] == parlays[idx[k]]
    ensures forall i: nat :: i < |parlays| ==> (i in idx <==> PlusEV(parlays[i]))
    decreases |parlays|
  {
    if |parlays| == 0 {
      idx := [];
    } else {
      var n := |parlays| - 1;
      var init, last := parlays[..n], parlays[n];
      assert parlays == init + [last];
      var prev := PlusEVIsSubsequence(init);
      assert ListsPlusEV(init, prev) && PicksAt(init, prev, PlusEVParlays(init));
      ListsSnoc(init, last, prev);
      PicksSnoc(init, last, prev);
      idx := prev + if PlusEV(last) then [n] else [];
    }
  }

  /** Appending a parlay appends it to the filtered list exactly when its expected value is positive. */
  lemma PlusEVSnoc(init: seq<Parlay>, last: Parlay)
    ensures PlusEVParlays(init + [last]) == PlusEVParlays(init) + if PlusEV(last) then [last] else []
  {
    PlusEVAppend(init, [last]);
    assert PlusEVParlays([last]) == if PlusEV(last) then [last] else [];
  }

  /** Appending a parlay adds its position exactly when its expected value is positive; that position is new. */
  lemma PositionsSnoc(init: seq<Parlay>, last: Parlay)
    ensures PlusEVPositions(init + [last]) == PlusEVPositions(init) + if PlusEV(last) then {|init|} else {}
    ensures |init| !in PlusEVPositions(init)
  {
    var parlays := init + [last];
    forall i: nat | i < |init|
      ensures parlays[i] == init[i]
    {
    }
  }

  /** `count` (main.ts:26) is the number of positions holding a parlay with a positive expected value. */
  lemma {:induction false} PlusEVCount(parlays: seq<Parlay>)
    ensures |PlusEVParlays(parlays)| == |PlusEVPositions(parlays)|
    decreases |parlays|
  {
    if |parlays| > 0 {
      var n := |parlays| - 1;
      var init, last := parlays[..n], parlays[n];
      assert parlays == init + [last];
      PlusEVCount(init);
      PlusEVSnoc(init, last);
      PositionsSnoc(init, last);
    }
  }

  /** `slice(0, 10)` (main.ts:27): the first ten elements, or all when there are fewer. */
  function TopParlays(plus: seq<Parlay>): (r: seq<Parlay>)
    ensures |r| == if |plus| < TopCount then |plus| else TopCount
    ensures r == plus[..|r|]
  {
    if |plus| <= TopCount then plus else plus[..TopCount]
  }

  /** `parlayAnalysis` of a list of parlays (main.ts:18, 25-28). */
  function Analysis(parlays: seq<Parlay>): (a: ParlayAnalysis)
    ensures a.count == |PlusEVParlays(parlays)|
    ensures |a.topParlays| <= TopCount && |a.topParlays| <= a.count
    ensures forall p :: p in a.topParlays ==> p in parlays && PlusEV(p)
  {
    var plus := PlusEVParlays(parlays);
    var top := TopParlays(plus);
    assert forall p :: p in top ==> p in plus;
    ParlayAnalysis(|plus|, top)
  }

  /** The top list is the filtered list cut at ten, and is all of it when the count is ten or less. */
  lemma TopIsPrefix(parlays: seq<Parlay>)
    ensures var a := Analysis(parlays);
            a.topParlays == PlusEVParlays(parlays)[..|a.topParlays|] &&
            (a.count <= TopCount ==> a.topParlays == PlusEVParlays(parlays))
  {
  }

  /** `.replace(/:/g, '-')` (main.ts:33). */
  function ReplaceColons(s: string): (r: string)
    ensures |r| == |s|
    ensures forall i :: 0 <= i < |s| ==> r[i] == if s[i] == ':' then '-' else s[i]
    decreases |s|
  {
    if |s| == 0 then ""
    else
      var rest := ReplaceColons(s[1..]);
      var r := [if s[0] == ':' then '-' else s[0]] + rest;
      assert forall i :: 1 <= i < |s| ==> r[i] == rest[i - 1] && s[i] == s[1..][i - 1];
      r
  }

  /** The replaced text has no colon, and replacing again changes nothing. */
  lemma ReplaceColonsClean(s: string)
    ensures ':' !in ReplaceColons(s)
    ensures ReplaceColons(ReplaceColons(s)) == ReplaceColons(s)
  {
    var r := ReplaceColons(s);
    assert forall i :: 0 <= i < |r| ==> r[i] != ':';
  }

  /** Replacing the colons of `s` gives `e` when `e` is `s` with a hyphen at each colon. */
  lemma ReplaceColonsIs(s: string, e: string)
    requires |e| == |s|
    requires forall i :: 0 <= i < |s| ==> e[i] == if s[i] == ':' then '-' else s[i]
    ensures ReplaceColons(s) == e
  {
  }

  /** A clock reading shaped like `toISOString()` output. */
  lemma ReplaceColonsExample()
    ensures ReplaceColons("2025-06-01T18:05:09.123Z") == "2025-06-01T18-05-09.123Z"
  {
    ReplaceColonsIs("2025-06-01T18:05:09.123Z", "2025-06-01T18-05-09.123Z");
  }

  /** `props_${timestamp}.json` (main.ts:35). */
  function FileName(clock: string): (name: string)
    ensures |name| == |clock| + 11
    ensures name[..6] == "props_" && name[|name| - 5..] == ".json"
    ensures name[6..|name| - 5] == ReplaceColons(clock)
    ensures ':' !in name
  {
    ReplaceColonsClean(clock);
    var name := "props_" + ReplaceColons(clock) + ".json";
    assert forall i :: 0 <= i < |name| ==> name[i] != ':' by {
      forall i | 0 <= i < |name|
        ensures name[i] != ':'
      {
        if 6 <= i < |name| - 5 {
          assert name[i] == ReplaceColons(clock)[i - 6];
        }
      }
    }
    name
  }

  /**
   * `main` from the scrape on (main.ts:12-37): when the crawl rejects, the
   * `catch` at main.ts:44 leaves no file; otherwise the file named after
   * `fileClock` holds the report stamped with `reportClock`, the scraped
   * list unchanged, and the analysis of `parlays`, the value
   * `analyzeParlays(props)` returns.
   */
  function Main(scraped: ScrapeResult, parlays: seq<Parlay>, reportClock: string, fileClock: string)
    : (saved: Option<SavedFile>)
    ensures saved.None? <==> scraped.Raised?
    ensures saved.Some? ==>
              && saved.value.name == FileName(fileClock)
              && saved.value.content.timestamp == reportClock
              && saved.value.content.mlb.props == scraped.bets
              && saved.value.content.mlb.parlayAnalysis.count == |PlusEVPositions(parlays)|
              && saved.value.content.mlb.parlayAnalysis.topParlays == TopParlays(PlusEVParlays(parlays))
  {
    match scraped
    case Raised => None
    case Returned(props) =>
      PlusEVCount(parlays);
      Some(SavedFile(FileName(fileClock), FinalOutput(reportClock, LeagueReport(props, Analysis(parlays)))))
  }
}
