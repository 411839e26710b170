/** The search page's own filter over team results. */
module SearchUtils {
  import opened Common
  import opened SearchTypes

  /** `filterTeams`'s test of one team: next kickoff in the window, market among the
      requested ones (any market when none are requested), green and blue inside their
      inclusive bands. The blue band applies whatever `useBlue` says. */
  predicate Admits(team: TeamResult, filters: SearchFilters, now: int, startOfDay: int -> int) {
    && InWindow(team.nextMatchDate, filters.nextMatch, now, startOfDay)
    && (|filters.markets| > 0 ==> team.market in filters.markets)
    && filters.probGreenMin <= team.probGreen <= filters.probGreenMax
    && filters.probBlueMin <= team.probBlue <= filters.probBlueMax
  }

  function AdmitsUnder(filters: SearchFilters, now: int, startOfDay: int -> int): TeamResult -> bool {
    team => Admits(team, filters, now, startOfDay)
  }

  /** `filterTeams`: the teams that pass, in their original order. */
  function FilterTeams(data: seq<TeamResult>, filters: SearchFilters, now: int, startOfDay: int -> int): (r: seq<TeamResult>)
    ensures forall i :: 0 <= i < |r| ==> r[i] in data && Admits(r[i], filters, now, startOfDay)
    ensures forall i :: 0 <= i < |data| && Admits(data[i], filters, now, startOfDay) ==> data[i] in r
  {
    Filter(data, AdmitsUnder(filters, now, startOfDay))
  }

  /** What a kept team satisfies, spelled out: its kickoff is in
      [startOfDay(now), startOfDay(now + (offset + 1) days)), its market is requested
      (when any is), and both probabilities are inside their bands, blue regardless of
      `useBlue`. */
  lemma FilterTeamsKept(data: seq<TeamResult>, filters: SearchFilters, now: int, startOfDay: int -> int, i: int)
    requires 0 <= i < |FilterTeams(data, filters, now, startOfDay)|
    ensures var t := FilterTeams(data, filters, now, startOfDay)[i];
      && t in data
      && t.nextMatchDate.Some?
      && startOfDay(now) <= t.nextMatchDate.value < startOfDay(now + (WindowOffset(filters.nextMatch) + 1) * DAY_MS)
      && (|filters.markets| > 0 ==> t.market in filters.markets)
      && filters.probGreenMin <= t.probGreen <= filters.probGreenMax
      && filters.probBlueMin <= t.probBlue <= filters.probBlueMax
  {
  }

  /** With no markets requested every market passes the market test. */
  lemma FilterTeamsAnyMarket(data: seq<TeamResult>, filters: SearchFilters, now: int, startOfDay: int -> int)
    requires |filters.markets| == 0
    ensures forall i :: 0 <= i < |data| ==>
      (data[i] in FilterTeams(data, filters, now, startOfDay) <==>
        && InWindow(data[i].nextMatchDate, filters.nextMatch, now, startOfDay)
        && filters.probGreenMin <= data[i].probGreen <= filters.probGreenMax
        && filters.probBlueMin <= data[i].probBlue <= filters.probBlueMax)
  {
  }

  /** The result is the input with some teams dropped and the rest in their order. */
  lemma FilterTeamsSubsequence(data: seq<TeamResult>, filters: SearchFilters, now: int, startOfDay: int -> int)
    ensures IsSubsequence(FilterTeams(data, filters, now, startOfDay), data)
  {
    FilterIsSubsequence(data, AdmitsUnder(filters, now, startOfDay));
  }

  /** Filtering again with the same filters and the same `now` changes nothing. */
  lemma FilterTeamsIdempotent(data: seq<TeamResult>, filters: SearchFilters, now: int, startOfDay: int -> int)
    ensures FilterTeams(FilterTeams(data, filters, now, startOfDay), filters, now, startOfDay)
         == FilterTeams(data, filters, now, startOfDay)
  {
    FilterIdempotent(data, AdmitsUnder(filters, now, startOfDay));
  }

  /** With a day start that never goes backwards, a wider window ("today" within "j1"
      within "j2" within "j3") keeps every team a narrower one keeps. */
  lemma WindowsNest(target: Option<int>, narrow: string, wide: string, now: int, startOfDay: int -> int)
    requires forall a, b :: a <= b ==> startOfDay(a) <= startOfDay(b)
    requires WindowOffset(narrow) <= WindowOffset(wide)
    ensures InWindow(target, narrow, now, startOfDay) ==> InWindow(target, wide, now, startOfDay)
  {
    var n, w := WindowOffset(narrow), WindowOffset(wide);
    assert (n + 1) * DAY_MS <= (w + 1) * DAY_MS;
  }
}
