/** The records the scraper produces (scraper.ts:4-14, 133-142). */
module Props {

  /**
   * A decimal price as the scraper reads it (scraper.ts:123-126). `Zero` is
   * the exact 0 an absent or blank price element gives; `Quoted(text)` stands
   * for `parseFloat(parseFloat(text).toFixed(3))` of the trimmed, non-blank
   * text, whose numeric value is not modelled.
   */
  datatype Odds = Zero | Quoted(text: string)

  /** The `type` field of a bet. */
  datatype Side = OVER | UNDER

  /** The one site every record is tagged with. */
  const Site: string := "Pinnacle"

  /** What one table row yields inside the page (the object pushed at scraper.ts:133-142). */
  datatype RawProp = RawProp(
    player: string,
    stat: string,
    line: real,
    overOdds: Odds,
    underOdds: Odds,
    market: string,
    site: string,
    timestamp: string)

  /** `PropBet` (scraper.ts:4-14): one side of one proposition, with the other side's odds. */
  datatype PropBet = PropBet(
    player: string,
    stat: string,
    line: real,
    side: Side,
    odds: Odds,
    oppOdds: Odds,
    market: string,
    site: string,
    timestamp: string)
}
