# winagain-football core, modelled in Dafny

This project models the computing core of a football betting dashboard and proves
properties about it. Data fetching, rendering and the language model are not modelled.
The core has five parts:

- **Second-half engine** (`SecondHalf`, `second_half.dfy`). One counting pass over a
  team's fixtures, each seen from the team's side. For each fixture it takes the
  second-half goals (full time minus half time), then counts:
  - win, draw and lose;
  - both teams to score (BTTS);
  - clean sheets;
  - over and under at the lines 0.5, 1.5 and 2.5.

  Each count comes with a percent of the total, rounded half up.
- **Team page aggregation** (`TeamAggregate`, `team_aggregate.dfy`). This is the
  in-memory part of loading a team page. It:
  - keeps the fixtures with both scores, and only those of the 2025 season when the
    range is "season";
  - sorts them most recent first, with an in-place stable sort over an array;
  - cuts them to the range, following JavaScript `slice` rules;
  - sees each fixture from the team's side;
  - tallies wins, draws, losses, goals, the W/D/L form string, and the win, BTTS and
    over 2.5 rates.
- **Team search endpoint** (`MarketSearch`, `market_search.dfy`; shared types in
  `SearchTypes`). It:
  - resolves the request filters and their defaults;
  - builds the candidate map of teams playing in the window (a JavaScript `Map`:
    insertion order, later fixtures overwrite earlier ones);
  - resolves each market to a green (historical) and a blue (streak) percent via
    `pickProb`, including the `line` string rewrite and the `safe`/`safeBlue` null
    handling;
  - keeps each team/market pair whose percents fall inside the inclusive bands.
- **Search page filter** (`SearchUtils`, `search_utils.dfy`). `filterTeams` and the
  day-window test.
- **Analysis cache** (`AnalysisCache`, `analysis_cache.dfy`). A class that holds the
  cache's entries (a map) and their insertion order (a sequence). It has:
  - `pruneCache`: a TTL sweep, then eviction of the oldest keys beyond 200, stopping at
    an empty key;
  - the hit, miss and store rule of the analysis endpoint.

`Common` (`common.dfy`) holds the pieces several parts share:
- the rounded percent;
- counting, and JavaScript `filter` with its properties;
- `Map` insertion order;
- the "today/j1/j2/j3" day window.

Dates are millisecond timestamps. `None` stands for a date that is missing, empty or
not parseable.

Each loop of the source is a Dafny `method` with the same loop: `Compute2H`, `Tally`,
`BuildCandidates`, `CollectResults`, and `Cache.Sweep`/`Cache.Evict`. Each is proved equal
to a specification function, and the properties are then proved about those functions.
The library call `Array.prototype.sort` at `lib/adapters/team.ts:60-62` has no loop in the
source. It is modelled by an in-place insertion sort over an array, `SortByDateDesc`, which
is proved equal to a stable most-recent-first sort, `SortDesc`.

Where parts of the program disagree, this model follows the code it models:
- Second-half goals are **not** clamped at zero. The team page's trend cards clamp the
  same difference with `Math.max(0, …)`
  (`app/team/[id]/components/probabilities/GoalsTrendCard.tsx:74-75` and
  `GoalsScoredTrendCard.tsx:41-42`), but `compute2H` subtracts and keeps the result. `CleanSheetLossWithoutClamp` shows the effect:
  with inconsistent scores, a clean sheet can also count as a loss.
- `filterTeams` applies the blue band whether or not `useBlue` is set. The route checks
  `useBlue`; the page filter does not.
- `useBlue` is read from the request body even though the body's declared type does not
  list it.

## Model

| member | source | states |
|---|---|---|
| Common.RoundPct | lib/analysisEngine/compute2H.ts:34 | `Math.round(n / total * 100)` for a positive total: the result r satisfies `2*total*r <= 200*n + total < 2*total*(r+1)` (half up); it lies in 0..100 when 0 <= n <= total, is 0 for n = 0 and 100 for n = total |
| Common.RoundPctMonotone | lib/analysisEngine/compute2H.ts:34 | a larger count never gets a smaller rounded percent |
| Common.RoundPctComplement | lib/analysisEngine/compute2H.ts:34 | the rounded percents of n and total - n add up to 100 or 101 |
| Common.Filter | app/search/utils.ts:96-102 | `Array.prototype.filter`: every kept element comes from the input and passes the test, and every input element that passes is kept; the length is the number of input elements that pass |
| Common.FilterMultiplicity | app/search/utils.ts:96-102 | each element that passes the test is kept exactly as often as it occurs in the input, and no other element is kept |
| Common.FilterIsSubsequence | app/search/utils.ts:96 | filtering only drops elements; the rest stay in order (an increasing index witness) |
| Common.FilterIdempotent | app/search/utils.ts:96 | filtering twice with the same test equals filtering once |
| Common.FilterNoDup | app/api/ai/team-analysis/route.ts:34-38 | deleting entries from a map whose keys are listed once leaves keys listed once |
| Common.InsertionOrder | app/api/search/teams/route.ts:132-141 | `Map.set` order: a key already present keeps its place and the order is unchanged; a new key goes last; keys stay listed once |
| Common.WindowOffset | app/api/search/teams/route.ts:42 | "today" gives 0 days, "j1" 1, "j2" 2, anything else 3; 0 exactly for "today" and 3 exactly for an unknown window |
| Common.InWindow | app/search/utils.ts:80-87 | a kickoff is in the window when it is present and lies in [startOfDay(now), startOfDay(now + (offset + 1) days)); the route's `inWindow` at app/api/search/teams/route.ts:39-45 is the same test |
| SecondHalf.Compute2H | lib/analysisEngine/compute2H.ts:3-46 | the counting loop (with the inner loop over the three lines) returns exactly `Summary2H` of the fixtures |
| SecondHalf.CountPass | lib/analysisEngine/compute2H.ts:15-32 | the loop over the fixtures ends with every result, BTTS, clean-sheet, over and under count equal to the number of fixtures satisfying that test, with exactly the lines 0.5, 1.5 and 2.5 as keys |
| SecondHalf.TallyResult | lib/analysisEngine/compute2H.ts:20-25 | one fixture adds one to exactly one of win (goals for above against), lose (below) and draw (equal), one to BTTS when both sides scored, and one to clean sheets when nothing was conceded |
| SecondHalf.TallyLines | lib/analysisEngine/compute2H.ts:27-31 | the loop over the lines 0.5, 1.5 and 2.5 adds one to the over count of each line the fixture's goals exceed, and one to the under count of every other line; the keys stay exactly the three lines |
| SecondHalf.Summary2HEmpty | lib/analysisEngine/compute2H.ts:4 | the divisor is the number of fixtures, or 1 when there are none, so never 0; with no fixtures every count and percent is 0 |
| SecondHalf.Summary2HResultsPartition | lib/analysisEngine/compute2H.ts:20-22 | win, draw and lose counts add up to the number of fixtures |
| SecondHalf.Summary2HOverUnderPartition | lib/analysisEngine/compute2H.ts:27-31 | at each line, over and under counts add up to the number of fixtures, and their percents to 100 or 101 |
| SecondHalf.Summary2HOverMonotone | lib/analysisEngine/compute2H.ts:27-31 | over counts and over percents never increase from line 0.5 to 1.5 to 2.5 |
| SecondHalf.Summary2HBttsBelowOver15 | lib/analysisEngine/compute2H.ts:24-29 | the BTTS count never exceeds the over 1.5 count |
| SecondHalf.Summary2HPercents | lib/analysisEngine/compute2H.ts:34-44 | every stat's count is at most the total and its percent is the half-up rounded share, within 0..100 |
| SecondHalf.CleanSheetNotLoss | lib/analysisEngine/compute2H.ts:16-25 | when the team's full-time score is not below its half-time score, a clean sheet is never a loss |
| SecondHalf.CleanSheetLossWithoutClamp | lib/analysisEngine/compute2H.ts:16-25 | because the difference is not clamped, a fixture with for 0 full time / 1 half time and against 0/0 counts as both a clean sheet and a loss |
| TeamAggregate.PlayedRows | lib/adapters/team.ts:52-58 | the kept rows all come from the input and have both scores (and for "season" are of season 2025), and every such input row is kept |
| TeamAggregate.PlayedRowsMultiplicity | lib/adapters/team.ts:52-58 | each qualifying row is kept as often as it occurs in the input, and no other row is kept |
| TeamAggregate.SortDescCorrect | lib/adapters/team.ts:60-62 | the sort yields the same rows (a permutation) ordered most recent first |
| TeamAggregate.SortDescStable | lib/adapters/team.ts:60-62 | the sort is stable: for every date, the rows of that date appear in their input order |
| TeamAggregate.InsertStable | lib/adapters/team.ts:60-62 | one insertion step keeps the rows of each date in order and puts the inserted row last among its own date |
| TeamAggregate.SortByDateDesc | lib/adapters/team.ts:60-62 | the in-place insertion sort leaves the array equal to the stable sort `SortDesc` of its old contents |
| TeamAggregate.InsertNext | lib/adapters/team.ts:60-62 | one step of the sort: the prefix up to and including `a[i]` becomes `Insert` of the old sorted prefix and `a[i]`, and the rest of the array is unchanged |
| TeamAggregate.SliceEnd | lib/adapters/team.ts:64-65 | `slice(0, n)` on a list of length len keeps min(n, len) rows for n >= 0, and max(len + n, 0) for a negative n (counting back from the end) |
| TeamAggregate.Perspective | lib/adapters/team.ts:67-78 | one match per row, in order, each marked home exactly when its home team is the team |
| TeamAggregate.SortedPlayed | lib/adapters/team.ts:60-62 | the sorted rows are as many as the played rows and all have both scores |
| TeamAggregate.SelectedRows | lib/adapters/team.ts:52-78 | the selection has no more matches than played rows; it is most recent first, every match comes from a played row of the input, and for "season" every match is of season 2025 |
| TeamAggregate.SelectedMostRecent | lib/adapters/team.ts:52-78 | the selection is the team's view of the first k sorted rows (k from the range); the sorted rows are the played rows, each as often as it occurs; every kept row is at least as recent as every dropped one |
| TeamAggregate.SelectedCount | lib/adapters/team.ts:64-65 | "season" keeps every played row; a range n >= 0 keeps min(n, played) |
| TeamAggregate.SelectedPerspective | lib/adapters/team.ts:68-96 | `isHome` holds exactly when the home team is the team; goals for and against are that side's and the other's |
| TeamAggregate.Tally | lib/adapters/team.ts:94-131 | the `forEach` accumulation returns exactly `Aggregate` of the matches |
| TeamAggregate.Accumulate | lib/adapters/team.ts:94-114 | after the pass, each counter is the number of matches won, drawn, lost, with both scores positive or with three goals or more; the goal sums add each match's goals for and against; the form has the letter of each match in order |
| TeamAggregate.TallyOutcome | lib/adapters/team.ts:101-110 | one match adds one to exactly one of wins, draws and losses, and appends the matching letter W, D or L |
| TeamAggregate.LoadTeamStats | lib/adapters/team.ts:51-137 | no fixtures at all gives no statistics; otherwise the fixtures are `Selected` (filter, sort in place, slice, perspective) and the statistics their tally |
| TeamAggregate.FormLength | lib/adapters/team.ts:101-110 | the form has one letter per match, in match order |
| TeamAggregate.AggregateResults | lib/adapters/team.ts:101-110 | wins + draws + losses = played; each form letter is W, D or L exactly as the match was won, drawn or lost |
| TeamAggregate.AggregateFormMatchesCounts | lib/adapters/team.ts:101-110 | the form has as many W as wins, D as draws and L as losses |
| TeamAggregate.AggregateGoals | lib/adapters/team.ts:98-125 | goals for plus goals against is every goal of the matches, whichever side the team played; goal difference is for minus against |
| TeamAggregate.AggregateRates | lib/adapters/team.ts:126-128 | the rates are 0 with no match played, otherwise the half-up rounded share of wins, BTTS and over 2.5, in 0..100 |
| SearchUtils.FilterTeams | app/search/utils.ts:95-103 | a team is kept exactly when its kickoff is in the window, its market is requested (any market when none is), and green and blue are inside the inclusive bands |
| SearchUtils.Admits | app/search/utils.ts:97-101 | the test `filterTeams` applies to one team: in the window, a requested market (any when none is), green and blue inside their inclusive bands |
| SearchUtils.FilterTeamsKept | app/search/utils.ts:80-100 | a kept team has a kickoff in [startOfDay(now), startOfDay(now + (offset+1) days)), a requested market, and green and blue inside their bands, blue even when `useBlue` is false |
| SearchUtils.FilterTeamsAnyMarket | app/search/utils.ts:98 | with no market requested, membership depends only on the window and the two bands |
| SearchUtils.FilterTeamsSubsequence | app/search/utils.ts:96 | the result is the input with teams dropped and the rest in their order |
| SearchUtils.FilterTeamsIdempotent | app/search/utils.ts:96 | filtering the result again with the same filters and the same clock changes nothing |
| SearchUtils.WindowsNest | app/search/utils.ts:80-87 | when the day start never goes backwards, a team in the "today" window is in "j1", one in "j1" is in "j2", and so on |
| MarketSearch.Safe | app/api/search/teams/route.ts:53 | the percent of the entry, or 0 when the entry or its percent is missing |
| MarketSearch.SafeBlue | app/api/search/teams/route.ts:54 | the percent of the entry, or null exactly when the entry or its percent is missing |
| MarketSearch.Line | app/api/search/teams/route.ts:52 | the chain of three first-occurrence `replace` calls (drop "OVER_", drop "UNDER_", first "_" to "."); its values are stated by `LineOfOver` and `LineOfUnder` |
| MarketSearch.LineOfOver | app/api/search/teams/route.ts:52-62 | `line` turns "OVER_a_b" into "a.b" |
| MarketSearch.LineOfUnder | app/api/search/teams/route.ts:52-74 | `line` turns "UNDER_a_b" into "a.b" ("OVER_" does not occur in it, and each `replace` acts on the first occurrence only) |
| MarketSearch.PickProb | app/api/search/teams/route.ts:47-89 | a probability is returned exactly for the 14 known markets, null for any other string |
| MarketSearch.OverFields | app/api/search/teams/route.ts:57-66 | each over market reads the `over` entry of its own line |
| MarketSearch.UnderFields | app/api/search/teams/route.ts:68-78 | each under market (0.5 to 5.5) reads the `under` entry of its own line |
| MarketSearch.PickProbFollowsTable | app/api/search/teams/route.ts:56-88 | `pickProb` equals reading the field a fixed market-to-field table names (over/under line, DC 1X, X2, 12), and the table's markets are exactly the known ones |
| MarketSearch.ResolveFilters | app/api/search/teams/route.ts:101-109 | the window defaults to "today" (also for ""); markets default to none (also for []); the green and blue bands default to 0 and 100; `useBlue` is off exactly when the body says `false` |
| MarketSearch.DefaultFilters | app/api/search/teams/route.ts:101-109 | an empty body, or one with "" and [], gives the default filters |
| MarketSearch.MarketsToCheck | app/api/search/teams/route.ts:196 | the requested markets, or only "OVER_2_5" when none are requested; never empty |
| MarketSearch.PassesBands | app/api/search/teams/route.ts:201-207 | the band test of the route: green inside the green band, and, only when `useBlue` is set, blue (null read as 0) inside the blue band |
| MarketSearch.CandidatesOf | app/api/search/teams/route.ts:123-143 | the candidate map lists each team once, and the listed teams are exactly its entries |
| MarketSearch.BuildCandidates | app/api/search/teams/route.ts:128-143 | the `forEach` over upcoming fixtures builds exactly `CandidatesOf` |
| MarketSearch.AddFixtureOther | app/api/search/teams/route.ts:128-143 | a fixture that does not name a team, or is out of the window, leaves that team's entry (or its absence) unchanged |
| MarketSearch.AddFixtureMentioned | app/api/search/teams/route.ts:131-142 | a fixture in the window that names a team with a truthy id sets its entry to the kickoff and the other side |
| MarketSearch.CandidatesKeys | app/api/search/teams/route.ts:128-143 | a team is a candidate exactly when some fixture in the window names it with a truthy id |
| MarketSearch.CandidatesLastWins | app/api/search/teams/route.ts:131-142 | a candidate's entry comes from the last fixture in the window that names it |
| MarketSearch.CollectResults | app/api/search/teams/route.ts:171-227 | the loop over candidate teams appends, team by team in candidate order, each team's results, and returns exactly `AllResults` |
| MarketSearch.MarketLoop | app/api/search/teams/route.ts:198-226 | the inner loop over the markets to check returns exactly `TeamResults`: one result per known market whose percents pass the bands, in market order |
| MarketSearch.Search | app/api/search/teams/route.ts:101-147 | the endpoint's results are `AllResults` over the candidates of the resolved window, in candidate order |
| MarketSearch.TeamResultsSound | app/api/search/teams/route.ts:198-225 | each result of a team is for a checked market that `pickProb` knows, passes the bands, and carries its green, blue (null read as 0) and the candidate's kickoff |
| MarketSearch.AllResultsSound | app/api/search/teams/route.ts:171-227 | every result is a candidate with engine output and a checked known market; green is in the green band and blue in the blue band when `useBlue` is set; `probBlue` is blue or 0; `aboveAverage` holds exactly when green >= 50 |
| MarketSearch.TeamResultsComplete | app/api/search/teams/route.ts:198-225 | a checked known market whose percents pass the bands yields a result |
| MarketSearch.AllResultsComplete | app/api/search/teams/route.ts:171-227 | no pair is lost: a candidate with engine output and a checked market inside the bands is in the results |
| AnalysisCache.Get | app/api/ai/team-analysis/route.ts:72-73 | a hit exactly when the key is present and its entry is at most one hour old, answered with its value |
| AnalysisCache.Swept | app/api/ai/team-analysis/route.ts:34-38 | after the sweep, every key is an old key with an unexpired entry, and every such key remains |
| AnalysisCache.StopAt | app/api/ai/team-analysis/route.ts:45-49 | the eviction deletes at most `overflow` keys and stops at the first empty key: all deleted keys are non-empty, and a stop before `overflow` is at an empty key |
| AnalysisCache.Evicted | app/api/ai/team-analysis/route.ts:39-49 | how many keys the eviction deletes: none within capacity; otherwise at most the overflow, all non-empty, and fewer only when an empty key stops it |
| AnalysisCache.PrunedOrder | app/api/ai/team-analysis/route.ts:33-50 | what remains after pruning is a suffix of the swept keys: only the oldest are evicted |
| AnalysisCache.Restrict | app/api/ai/team-analysis/route.ts:36-48 | deleting map keys keeps exactly the entries of the listed keys, with their values |
| AnalysisCache.Cache.constructor | app/api/ai/team-analysis/route.ts:28-29 | a new cache is empty and well formed |
| AnalysisCache.Cache.Prune | app/api/ai/team-analysis/route.ts:33-50 | `pruneCache` leaves the order `PrunedOrder` and the entries `PrunedEntries` of the old state, and keeps the cache well formed |
| AnalysisCache.Cache.Sweep | app/api/ai/team-analysis/route.ts:34-38 | the first `forEach` deletes exactly the expired entries, and the rest keep their order and values |
| AnalysisCache.Cache.Evict | app/api/ai/team-analysis/route.ts:39-49 | within capacity nothing is deleted; otherwise the `StopAt` oldest keys are deleted |
| AnalysisCache.Cache.Put | app/api/ai/team-analysis/route.ts:127 | `Map.set`: the entry is stored with `now`; a new key goes last |
| AnalysisCache.Cache.Handle | app/api/ai/team-analysis/route.ts:52-143 | without an API key nothing changes; otherwise the cache is pruned, then a hit is answered from it, a failed request stores nothing, and a miss stores the reply under the key at the end of the order |
| AnalysisCache.PrunedFresh | app/api/ai/team-analysis/route.ts:34-73 | after pruning every entry is unexpired and unchanged, so the hit test reduces to presence |
| AnalysisCache.PrunedValid | app/api/ai/team-analysis/route.ts:33-50 | pruning keeps every key listed once, and the listed keys exactly the entries |
| AnalysisCache.MissKeyAbsent | app/api/ai/team-analysis/route.ts:72-127 | on a miss after pruning the key is absent, so storing it appends it to the order |
| AnalysisCache.PruneWithinCapacity | app/api/ai/team-analysis/route.ts:39 | with at most 200 unexpired entries only the expired ones are deleted |
| AnalysisCache.PruneBound | app/api/ai/team-analysis/route.ts:39-49 | without an empty key among the oldest `overflow` keys, at most 200 entries remain, and exactly 200 when there were more |
| AnalysisCache.PrunedSizeBound | app/api/ai/team-analysis/route.ts:39-49 | for a cache whose keys are listed once, the map itself (`Map.size`) holds at most 200 entries after pruning, and exactly 200 when the sweep left more, unless an empty key stops the eviction |
| AnalysisCache.EmptyKeyStopsEviction | app/api/ai/team-analysis/route.ts:47 | an empty key at the front of an overfull cache stops the eviction at once, and the cache stays above 200 |
| AnalysisCache.SweptOfPruned | app/api/ai/team-analysis/route.ts:34-38 | a second sweep at the same moment finds nothing expired |
| AnalysisCache.EvictedAgain | app/api/ai/team-analysis/route.ts:39-49 | a second eviction right after the first deletes nothing |
| AnalysisCache.PruneIdempotent | app/api/ai/team-analysis/route.ts:33-50 | pruning twice at the same moment gives the same order and entries as pruning once |

## Left out

- Fetching: Supabase queries (upcoming, teams, competitions, finished fixtures), the upstream error responses, and the call to the OpenAI chat API. Their results are parameters, or `None` on failure.
- `computeFT`, `computeStreaks` and the rest of the analysis engine are not part of this model. The search takes their output per team as a `PercentTable`. A team whose finished-fixture query fails or returns nothing has no entry there.
- Display fields: team name, logo and league, the opponent's name, the `?? "Unknown"` fallbacks, standings, and the HTTP headers. They are copied, not computed.
- `startOfDay` (local midnight via `setHours`) and the clock are parameters. The two `Date.now()` calls of the window test are one `now`.
- Date strings are parsed to timestamps outside the model. A missing, empty or unparsable date is `None`, and the window test rejects it as the source does (`NaN` compares false).
- The request body for the analysis cache: the key is the serialised payload, taken as a given string.
- Common.RoundPct: models `Math.round(n / total * 100)` as exact half-up rounding of the rational n*100/total. Floating-point error at exact halves is not modelled.
- TeamAggregate.Tally: `avg_goals_for` and `avg_goals_against` (`toFixed(2)` floats) are not modelled.
- TeamAggregate.SortByDateDesc: dates are integer timestamps. A row whose date parses to `NaN` would make the source comparator inconsistent; that case is not modelled.
- TeamAggregate.SliceEnd: a non-integer numeric `range` (such as 2.5, which `slice` truncates to 2) is not modelled; `Range` holds only integers.
- TeamAggregate.LoadTeamStats: a `range` that is neither a number nor "season" is not modelled. Integer ranges follow `slice` exactly, negative ones included.
- AnalysisCache.PruneBound: bounds the size only when no empty key is among the oldest overflow keys. The source's `if (!key) break` stops there otherwise (see `EmptyKeyStopsEviction`). Keys come from `JSON.stringify`, which never yields "".
- Concurrency: overlapping requests to the analysis endpoint sharing the module-level cache.
