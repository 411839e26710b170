/** The types shared by the search route and the search page. */
module SearchTypes {
  import opened Common

  /** The markets a search can ask for. Requests are JSON, so a market is a string and
      any string can arrive; these are the ones the route understands. */
  const OverMarkets: set<string> := {"OVER_0_5", "OVER_1_5", "OVER_2_5", "OVER_3_5", "OVER_4_5"}
  const UnderMarkets: set<string> := {"UNDER_0_5", "UNDER_1_5", "UNDER_2_5", "UNDER_3_5", "UNDER_4_5", "UNDER_5_5"}
  const DoubleChanceMarkets: set<string> := {"DC_1X", "DC_X2", "DC_12"}
  const Markets: set<string> := OverMarkets + UnderMarkets + DoubleChanceMarkets

  /** One line of the search results: a team, its next kickoff, one market and the two
      probabilities for it (green: the historical percent, blue: the streak percent). */
  datatype TeamResult = TeamResult(
    id: int,
    nextMatchDate: Option<int>,
    market: string,
    probGreen: int,
    probBlue: int,
    aboveAverage: bool)

  /** The filters of a search: the next-match window ("today", "j1", "j2", "j3"), the
      markets (empty: no restriction), inclusive green and blue bands, and whether the
      blue band applies. */
  datatype SearchFilters = SearchFilters(
    nextMatch: string,
    markets: seq<string>,
    probGreenMin: int,
    probGreenMax: int,
    probBlueMin: int,
    probBlueMax: int,
    useBlue: bool)
}
