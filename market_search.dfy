/** The team search endpoint: resolve the filters of a request, collect the teams
    playing in the window, resolve each requested market to a green (historical) and a
    blue (streak) percent, and keep the team/market pairs inside the bands. */
module MarketSearch {
  import opened Common
  import opened SearchTypes

  // ---------------------------------------------------------------- market resolver

  /** An entry of an engine's output: `{ percent }`, where the percent may be null. */
  datatype Entry = Entry(percent: Option<int>)

  /** What the full-time engine or the streak engine (neither is part of this model)
      returns, as far as the resolver reads it: `over`/`under` entries keyed by line
      ("2.5"), and the double-chance entries; a missing key or field is `None`. */
  datatype PercentTable = PercentTable(
    over: map<string, Entry>,
    under: map<string, Entry>,
    dc1x: Option<Entry>,
    dcX2: Option<Entry>,
    dc12: Option<Entry>)

  /** Green is always a number; blue may be null. */
  datatype Prob = Prob(green: int, blue: Option<int>)

  function Get(m: map<string, Entry>, key: string): Option<Entry> {
    if key in m then Some(m[key]) else None
  }

  /** `safe`: the percent, or 0 when the entry or its percent is missing. */
  function Safe(e: Option<Entry>): (p: int)
    ensures e.Some? && e.value.percent.Some? ==> p == e.value.percent.value
    ensures e.None? || e.value.percent.None? ==> p == 0
  {
    if e.Some? then e.value.percent.GetOr(0) else 0
  }

  /** `safeBlue`: the percent, or null when the entry or its percent is missing. */
  function SafeBlue(e: Option<Entry>): (p: Option<int>)
    ensures p.None? <==> e.None? || e.value.percent.None?
    ensures p.Some? ==> p.value == e.value.percent.value
  {
    if e.Some? then e.value.percent else None
  }

  /** `String.prototype.replace` with a string pattern: only the first occurrence. */
  function ReplaceFirst(s: string, pat: string, rep: string): string
    decreases |s|
  {
    if |s| < |pat| then s
    else if s[..|pat|] == pat then rep + s[|pat|..]
    else if |s| == 0 then s
    else [s[0]] + ReplaceFirst(s[1..], pat, rep)
  }

  /** `line`: strip "OVER_", strip "UNDER_", then turn the first "_" into ".". */
  function Line(market: string): string {
    ReplaceFirst(ReplaceFirst(ReplaceFirst(market, "OVER_", ""), "UNDER_", ""), "_", ".")
  }

  lemma ReplaceFirstShort(s: string, pat: string, rep: string)
    requires |s| < |pat|
    ensures ReplaceFirst(s, pat, rep) == s
  {
  }

  lemma ReplaceFirstHere(s: string, pat: string, rep: string)
    requires |s| >= |pat| && s[..|pat|] == pat
    ensures ReplaceFirst(s, pat, rep) == rep + s[|pat|..]
  {
  }

  /** Where the pattern cannot start at the first character, the rewrite keeps that
      character and looks further on. */
  lemma ReplaceFirstSkip(s: string, pat: string, rep: string)
    requires |pat| > 0 && |s| >= |pat| && s[0] != pat[0]
    ensures ReplaceFirst(s, pat, rep) == [s[0]] + ReplaceFirst(s[1..], pat, rep)
  {
    assert s[..|pat|][0] == s[0];
  }

  /** The last two rewrites of `line` turn "a_b" into "a.b". */
  lemma LineTail(a: char, b: char)
    requires a != '_'
    ensures ReplaceFirst(ReplaceFirst([a, '_', b], "UNDER_", ""), "_", ".") == [a, '.', b]
  {
    var rest := [a, '_', b];
    ReplaceFirstShort(rest, "UNDER_", "");
    ReplaceFirstSkip(rest, "_", ".");
    assert rest[1..] == ['_', b];
    ReplaceFirstHere(['_', b], "_", ".");
    assert ['_', b][1..] == [b];
  }

  /** "OVER_a_b" becomes "a.b": the key of the line a.b. */
  lemma LineOfOver(a: char, b: char)
    requires a != '_'
    ensures Line(['O', 'V', 'E', 'R', '_', a, '_', b]) == [a, '.', b]
  {
    var s := ['O', 'V', 'E', 'R', '_', a, '_', b];
    assert s[..5] == "OVER_" && s[5..] == [a, '_', b];
    ReplaceFirstHere(s, "OVER_", "");
    assert "" + [a, '_', b] == [a, '_', b];
    LineTail(a, b);
  }

  /** "OVER_" does not occur in "UNDER_a_b", so the first rewrite of `line` keeps it. */
  lemma UnderKeepsOver(a: char, b: char)
    ensures var s := ['U', 'N', 'D', 'E', 'R', '_', a, '_', b];
      ReplaceFirst(s, "OVER_", "") == s
  {
    var s := ['U', 'N', 'D', 'E', 'R', '_', a, '_', b];
    var s1, s2, s3, s4, s5 := s[1..], s[2..], s[3..], s[4..], s[5..];
    assert s1[1..] == s2 && s2[1..] == s3 && s3[1..] == s4 && s4[1..] == s5;
    ReplaceFirstShort(s5, "OVER_", "");
    ReplaceFirstSkip(s4, "OVER_", "");
    assert ReplaceFirst(s4, "OVER_", "") == s4 by { assert [s4[0]] + s5 == s4; }
    ReplaceFirstSkip(s3, "OVER_", "");
    assert ReplaceFirst(s3, "OVER_", "") == s3 by { assert [s3[0]] + s4 == s3; }
    ReplaceFirstSkip(s2, "OVER_", "");
    assert ReplaceFirst(s2, "OVER_", "") == s2 by { assert [s2[0]] + s3 == s2; }
    ReplaceFirstSkip(s1, "OVER_", "");
    assert ReplaceFirst(s1, "OVER_", "") == s1 by { assert [s1[0]] + s2 == s1; }
    ReplaceFirstSkip(s, "OVER_", "");
    assert [s[0]] + s1 == s;
  }

  /** "UNDER_a_b" becomes "a.b": only the last two rewrites act. */
  lemma LineOfUnder(a: char, b: char)
    requires a != '_'
    ensures Line(['U', 'N', 'D', 'E', 'R', '_', a, '_', b]) == [a, '.', b]
  {
    var s := ['U', 'N', 'D', 'E', 'R', '_', a, '_', b];
    UnderKeepsOver(a, b);
    assert s[..6] == "UNDER_" && s[6..] == [a, '_', b];
    ReplaceFirstHere(s, "UNDER_", "");
    assert "" + [a, '_', b] == [a, '_', b];
    LineTail(a, b);
  }

  /** `pickProb`: the green and blue percents a market reads, or null for a market the
      route does not know. */
  function PickProb(market: string, stats: PercentTable, streaks: PercentTable): (r: Option<Prob>)
    ensures r.Some? <==> market in Markets
  {
    if market in OverMarkets then
      var key := Line(market);
      Some(Prob(Safe(Get(stats.over, key)), SafeBlue(Get(streaks.over, key))))
    else if market in UnderMarkets then
      var key := Line(market);
      Some(Prob(Safe(Get(stats.under, key)), SafeBlue(Get(streaks.under, key))))
    else if market == "DC_1X" then Some(Prob(Safe(stats.dc1x), SafeBlue(streaks.dc1x)))
    else if market == "DC_X2" then Some(Prob(Safe(stats.dcX2), SafeBlue(streaks.dcX2)))
    else if market == "DC_12" then Some(Prob(Safe(stats.dc12), SafeBlue(streaks.dc12)))
    else None
  }

  /** The field of the engines' output that answers a market, written out as a table. */
  datatype Field = OverLine(key: string) | UnderLine(key: string) | Dc1X | DcX2 | Dc12

  const MarketFields: map<string, Field> := map[
    "OVER_0_5" := OverLine("0.5"), "OVER_1_5" := OverLine("1.5"), "OVER_2_5" := OverLine("2.5"),
    "OVER_3_5" := OverLine("3.5"), "OVER_4_5" := OverLine("4.5"),
    "UNDER_0_5" := UnderLine("0.5"), "UNDER_1_5" := UnderLine("1.5"), "UNDER_2_5" := UnderLine("2.5"),
    "UNDER_3_5" := UnderLine("3.5"), "UNDER_4_5" := UnderLine("4.5"), "UNDER_5_5" := UnderLine("5.5"),
    "DC_1X" := Dc1X, "DC_X2" := DcX2, "DC_12" := Dc12]

  function Read(field: Field, stats: PercentTable, streaks: PercentTable): Prob {
    match field
    case OverLine(key) => Prob(Safe(Get(stats.over, key)), SafeBlue(Get(streaks.over, key)))
    case UnderLine(key) => Prob(Safe(Get(stats.under, key)), SafeBlue(Get(streaks.under, key)))
    case Dc1X => Prob(Safe(stats.dc1x), SafeBlue(streaks.dc1x))
    case DcX2 => Prob(Safe(stats.dcX2), SafeBlue(streaks.dcX2))
    case Dc12 => Prob(Safe(stats.dc12), SafeBlue(streaks.dc12))
  }

  lemma MarketFieldsKeys()
    ensures MarketFields.Keys == Markets
  {
  }

  /** The over market of line d.5 is listed and its table field is the line d.5. */
  lemma OverField(d: char)
    requires d in "01234"
    ensures var m := ['O', 'V', 'E', 'R', '_', d, '_', '5'];
      m in OverMarkets && m in MarketFields && MarketFields[m] == OverLine([d, '.', '5'])
  {
  }

  /** Every over market's table field is the over line `line` computes for it. */
  lemma OverFields(market: string)
    requires market in OverMarkets
    ensures market in MarketFields && MarketFields[market] == OverLine(Line(market))
  {
    var d := market[5];
    assert d in "01234";
    assert market == ['O', 'V', 'E', 'R', '_', d, '_', '5'];
    OverField(d);
    LineOfOver(d, '5');
  }

  /** The under market of line d.5 is listed and its table field is the line d.5. */
  lemma UnderField(d: char)
    requires d in "012345"
    ensures var m := ['U', 'N', 'D', 'E', 'R', '_', d, '_', '5'];
      m in UnderMarkets && m in MarketFields && MarketFields[m] == UnderLine([d, '.', '5'])
  {
  }

  /** Every under market's table field is the under line `line` computes for it. */
  lemma UnderFields(market: string)
    requires market in UnderMarkets
    ensures market in MarketFields && MarketFields[market] == UnderLine(Line(market))
  {
    var d := market[6];
    assert d in "012345";
    assert market == ['U', 'N', 'D', 'E', 'R', '_', d, '_', '5'];
    UnderField(d);
    LineOfUnder(d, '5');
  }

  /** The string rewrite in `pickProb` reads exactly the field the table names for every
      market, and an unknown market reads nothing. */
  lemma PickProbFollowsTable(market: string, stats: PercentTable, streaks: PercentTable)
    ensures MarketFields.Keys == Markets
    ensures PickProb(market, stats, streaks)
         == if market in MarketFields then Some(Read(MarketFields[market], stats, streaks)) else None
  {
    MarketFieldsKeys();
    if market in OverMarkets {
      OverFields(market);
    } else if market in UnderMarkets {
      UnderFields(market);
    }
  }

  // ---------------------------------------------------------------- filters

  /** The request body as parsed; a field left out (or null) is `None`. A body that is
      not JSON is read as the empty object. */
  datatype RequestBody = RequestBody(
    nextMatch: Option<string>,
    markets: Option<seq<string>>,
    probGreenMin: Option<int>,
    probGreenMax: Option<int>,
    probBlueMin: Option<int>,
    probBlueMax: Option<int>,
    useBlue: Option<bool>)

  const EmptyBody: RequestBody := RequestBody(None, None, None, None, None, None, None)

  /** The filters with their defaults: window "today" (also for an empty string),
      no markets, both bands 0..100, and the blue band on unless `useBlue` is false. */
  function ResolveFilters(body: RequestBody): (f: SearchFilters)
    ensures f.nextMatch == "today" <==> body.nextMatch.None? || body.nextMatch.value in {"", "today"}
    ensures f.nextMatch != "today" ==> f.nextMatch == body.nextMatch.value
    ensures f.markets == (if body.markets.Some? then body.markets.value else [])
    ensures f.probGreenMin == body.probGreenMin.GetOr(0) && f.probGreenMax == body.probGreenMax.GetOr(100)
    ensures f.probBlueMin == body.probBlueMin.GetOr(0) && f.probBlueMax == body.probBlueMax.GetOr(100)
    ensures !f.useBlue <==> body.useBlue == Some(false)
  {
    SearchFilters(
      if body.nextMatch.Some? && body.nextMatch.value != "" then body.nextMatch.value else "today",
      if body.markets.Some? && |body.markets.value| > 0 then body.markets.value else [],
      body.probGreenMin.GetOr(0),
      body.probGreenMax.GetOr(100),
      body.probBlueMin.GetOr(0),
      body.probBlueMax.GetOr(100),
      body.useBlue != Some(false))
  }

  /** An empty (or unparsable) body searches today's fixtures, every market, both
      bands wide open and the blue band on. */
  lemma DefaultFilters()
    ensures ResolveFilters(EmptyBody) == SearchFilters("today", [], 0, 100, 0, 100, true)
    ensures ResolveFilters(EmptyBody.(nextMatch := Some(""), markets := Some([]))) == ResolveFilters(EmptyBody)
  {
  }

  /** With no markets requested, only over 2.5 is checked. */
  function MarketsToCheck(f: SearchFilters): (ms: seq<string>)
    ensures |ms| > 0
    ensures |f.markets| > 0 ==> ms == f.markets
    ensures |f.markets| == 0 ==> ms == ["OVER_2_5"]
  {
    if |f.markets| > 0 then f.markets else ["OVER_2_5"]
  }

  /** The band test: green inside [probGreenMin, probGreenMax], and when `useBlue`
      holds blue (null read as 0) inside [probBlueMin, probBlueMax]; both inclusive. */
  predicate PassesBands(p: Prob, f: SearchFilters) {
    && f.probGreenMin <= p.green <= f.probGreenMax
    && (f.useBlue ==> f.probBlueMin <= p.blue.GetOr(0) <= f.probBlueMax)
  }

  // ---------------------------------------------------------------- candidates

  /** A fixture row of the upcoming query; a missing, empty or unreadable date is `None`. */
  datatype Upcoming = Upcoming(dateUtc: Option<int>, homeTeamId: Option<int>, awayTeamId: Option<int>)

  datatype Candidate = Candidate(nextMatchDate: int, opponentId: Option<int>)

  /** The JavaScript `Map` of candidates: its keys in insertion order and its entries. */
  datatype Candidates = Candidates(order: seq<int>, meta: map<int, Candidate>)

  /** A team id passes `if (id)` when it is present and not 0. */
  predicate Truthy(id: Option<int>) { id.Some? && id.value != 0 }

  function SetCandidate(c: Candidates, team: int, entry: Candidate): Candidates {
    Candidates(InsertionOrder(c.order, team), c.meta[team := entry])
  }

  /** One step of the `forEach`: a fixture in the window sets its home team (facing the
      away team) and then its away team (facing the home team). */
  function AddFixture(c: Candidates, f: Upcoming, window: string, now: int, startOfDay: int -> int): Candidates {
    if !InWindow(f.dateUtc, window, now, startOfDay) then c
    else
      var c1 := if Truthy(f.homeTeamId) then SetCandidate(c, f.homeTeamId.value, Candidate(f.dateUtc.value, f.awayTeamId)) else c;
      if Truthy(f.awayTeamId) then SetCandidate(c1, f.awayTeamId.value, Candidate(f.dateUtc.value, f.homeTeamId)) else c1
  }

  /** The candidate map after the whole `forEach`: its keys are listed once each, and
      the listed keys are exactly the entries. */
  function CandidatesOf(fs: seq<Upcoming>, window: string, now: int, startOfDay: int -> int): (c: Candidates)
    ensures NoDup(c.order)
    ensures forall t :: t in c.meta <==> t in c.order
  {
    if |fs| == 0 then Candidates([], map[])
    else AddFixture(CandidatesOf(fs[..|fs| - 1], window, now, startOfDay), fs[|fs| - 1], window, now, startOfDay)
  }

  /** Fills the candidate map from the upcoming fixtures, as the route's `forEach` does. */
  method BuildCandidates(upcoming: seq<Upcoming>, window: string, now: int, startOfDay: int -> int)
    returns (order: seq<int>, meta: map<int, Candidate>)
    ensures Candidates(order, meta) == CandidatesOf(upcoming, window, now, startOfDay)
  {
    order, meta := [], map[];
    var i := 0;
    while i < |upcoming|
      invariant 0 <= i <= |upcoming|
      invariant Candidates(order, meta) == CandidatesOf(upcoming[..i], window, now, startOfDay)
    {
      var f := upcoming[i];
      assert upcoming[..i + 1][..i] == upcoming[..i];
      if InWindow(f.dateUtc, window, now, startOfDay) {
        if f.homeTeamId.Some? && f.homeTeamId.value != 0 {
          order := InsertionOrder(order, f.homeTeamId.value);
          meta := meta[f.homeTeamId.value := Candidate(f.dateUtc.value, f.awayTeamId)];
        }
        if f.awayTeamId.Some? && f.awayTeamId.value != 0 {
          order := InsertionOrder(order, f.awayTeamId.value);
          meta := meta[f.awayTeamId.value := Candidate(f.dateUtc.value, f.homeTeamId)];
        }
      }
      i := i + 1;
    }
    assert upcoming[..i] == upcoming;
  }

  /** A fixture in the window that names team `t` on either side. */
  predicate Mentions(f: Upcoming, t: int, window: string, now: int, startOfDay: int -> int) {
    && InWindow(f.dateUtc, window, now, startOfDay)
    && ((Truthy(f.homeTeamId) && f.homeTeamId.value == t) || (Truthy(f.awayTeamId) && f.awayTeamId.value == t))
  }

  /** The entry such a fixture leaves for `t`: the other side is the opponent (the away
      side's entry wins when `t` plays both sides). */
  function EntryFor(f: Upcoming, t: int): Candidate
    requires f.dateUtc.Some?
  {
    if Truthy(f.awayTeamId) && f.awayTeamId.value == t then Candidate(f.dateUtc.value, f.homeTeamId)
    else Candidate(f.dateUtc.value, f.awayTeamId)
  }

  /** A fixture that does not name `t` leaves `t`'s entry, or its absence, alone. */
  lemma AddFixtureOther(c: Candidates, f: Upcoming, t: int, window: string, now: int, startOfDay: int -> int)
    requires !Mentions(f, t, window, now, startOfDay)
    ensures var c' := AddFixture(c, f, window, now, startOfDay);
      && (t in c'.meta <==> t in c.meta)
      && (t in c.meta ==> c'.meta[t] == c.meta[t])
  {
  }

  /** A fixture that names `t` sets `t`'s entry to the kickoff and the other side. */
  lemma AddFixtureMentioned(c: Candidates, f: Upcoming, t: int, window: string, now: int, startOfDay: int -> int)
    requires Mentions(f, t, window, now, startOfDay)
    ensures var c' := AddFixture(c, f, window, now, startOfDay);
      t in c'.meta && c'.meta[t] == EntryFor(f, t)
  {
  }

  /** A team is a candidate exactly when some fixture in the window names it. */
  lemma {:induction false} CandidatesKeys(fs: seq<Upcoming>, window: string, now: int, startOfDay: int -> int, t: int)
    ensures t in CandidatesOf(fs, window, now, startOfDay).meta
        <==> exists i :: 0 <= i < |fs| && Mentions(fs[i], t, window, now, startOfDay)
  {
    if |fs| > 0 {
      var init := fs[..|fs| - 1];
      var f := fs[|fs| - 1];
      CandidatesKeys(init, window, now, startOfDay, t);
      var c0 := CandidatesOf(init, window, now, startOfDay);
      if Mentions(f, t, window, now, startOfDay) {
        AddFixtureMentioned(c0, f, t, window, now, startOfDay);
      } else {
        AddFixtureOther(c0, f, t, window, now, startOfDay);
        if exists i :: 0 <= i < |fs| && Mentions(fs[i], t, window, now, startOfDay) {
          var i :| 0 <= i < |fs| && Mentions(fs[i], t, window, now, startOfDay);
          assert i < |init| && init[i] == fs[i];
        }
        if exists i :: 0 <= i < |init| && Mentions(init[i], t, window, now, startOfDay) {
          var i :| 0 <= i < |init| && Mentions(init[i], t, window, now, startOfDay);
          assert fs[i] == init[i];
        }
      }
    }
  }

  /** A candidate's entry comes from the last fixture in the window that names it:
      later fixtures overwrite earlier ones. */
  lemma {:induction false} CandidatesLastWins(fs: seq<Upcoming>, window: string, now: int, startOfDay: int -> int, t: int, i: int)
    requires 0 <= i < |fs| && Mentions(fs[i], t, window, now, startOfDay)
    requires forall j :: i < j < |fs| ==> !Mentions(fs[j], t, window, now, startOfDay)
    ensures var c := CandidatesOf(fs, window, now, startOfDay);
      t in c.meta && c.meta[t] == EntryFor(fs[i], t)
  {
    var init := fs[..|fs| - 1];
    var c0 := CandidatesOf(init, window, now, startOfDay);
    if i == |fs| - 1 {
      AddFixtureMentioned(c0, fs[i], t, window, now, startOfDay);
    } else {
      assert init[i] == fs[i];
      forall j | i < j < |init|
        ensures !Mentions(init[j], t, window, now, startOfDay)
      {
        assert init[j] == fs[j];
      }
      CandidatesLastWins(init, window, now, startOfDay, t, i);
      AddFixtureOther(c0, fs[|fs| - 1], t, window, now, startOfDay);
    }
  }

  // ---------------------------------------------------------------- results

  /** A team's full-time statistics and streaks, from engines not part of this model.
      A team whose finished fixtures could not be read, or has none, has no entry. */
  datatype TeamEngines = TeamEngines(stats: PercentTable, streaks: PercentTable)

  function ResultOf(team: int, meta: map<int, Candidate>, market: string, p: Prob): TeamResult {
    TeamResult(
      team,
      if team in meta then Some(meta[team].nextMatchDate) else None,
      market,
      p.green,
      p.blue.GetOr(0),
      p.green >= 50)
  }

  /** The results for one team, market by market in the order asked. */
  function TeamResults(team: int, meta: map<int, Candidate>, markets: seq<string>, e: TeamEngines, f: SearchFilters): seq<TeamResult> {
    if |markets| == 0 then []
    else
      var market := markets[|markets| - 1];
      var rest := TeamResults(team, meta, markets[..|markets| - 1], e, f);
      var prob := PickProb(market, e.stats, e.streaks);
      if prob.Some? && PassesBands(prob.value, f) then rest + [ResultOf(team, meta, market, prob.value)] else rest
  }

  /** The results for all candidate teams, team by team in candidate order. */
  function AllResults(teams: seq<int>, meta: map<int, Candidate>, f: SearchFilters, engines: map<int, TeamEngines>): seq<TeamResult> {
    if |teams| == 0 then []
    else
      var team := teams[|teams| - 1];
      var rest := AllResults(teams[..|teams| - 1], meta, f, engines);
      if team in engines then rest + TeamResults(team, meta, MarketsToCheck(f), engines[team], f) else rest
  }

  /** The outer loop of the route: for each candidate team with engine output, the
      results of its markets; a team without engine output is skipped. */
  method CollectResults(teamIds: seq<int>, meta: map<int, Candidate>, filters: SearchFilters, engines: map<int, TeamEngines>)
    returns (results: seq<TeamResult>)
    ensures results == AllResults(teamIds, meta, filters, engines)
  {
    results := [];
    var marketsToCheck := MarketsToCheck(filters);
    var t := 0;
    while t < |teamIds|
      invariant 0 <= t <= |teamIds|
      invariant results == AllResults(teamIds[..t], meta, filters, engines)
    {
      var teamId := teamIds[t];
      assert teamIds[..t + 1][..t] == teamIds[..t];
      if teamId in engines {
        var found := MarketLoop(teamId, meta, marketsToCheck, engines[teamId], filters);
        results := results + found;
      }
      t := t + 1;
    }
    assert teamIds[..t] == teamIds;
  }

  /** The inner loop of the route: for each market to check, skip an unknown market or
      one outside the bands, and otherwise push a result. */
  method MarketLoop(teamId: int, meta: map<int, Candidate>, marketsToCheck: seq<string>, e: TeamEngines, filters: SearchFilters)
    returns (found: seq<TeamResult>)
    ensures found == TeamResults(teamId, meta, marketsToCheck, e, filters)
  {
    found := [];
    var m := 0;
    while m < |marketsToCheck|
      invariant 0 <= m <= |marketsToCheck|
      invariant found == TeamResults(teamId, meta, marketsToCheck[..m], e, filters)
    {
      var market := marketsToCheck[m];
      assert marketsToCheck[..m + 1][..m] == marketsToCheck[..m];
      var prob := PickProb(market, e.stats, e.streaks);
      if prob.Some? {
        var green := prob.value.green;
        var blue := prob.value.blue.GetOr(0);
        if !(green < filters.probGreenMin || green > filters.probGreenMax)
           && !(filters.useBlue && (blue < filters.probBlueMin || blue > filters.probBlueMax))
        {
          found := found + [TeamResult(
            teamId,
            if teamId in meta then Some(meta[teamId].nextMatchDate) else None,
            market,
            green,
            blue,
            green >= 50)];
        }
      }
      m := m + 1;
    }
    assert marketsToCheck[..m] == marketsToCheck;
  }

  /** `POST`: filters with defaults, the candidates of the window, and their results. */
  method Search(body: RequestBody, upcoming: seq<Upcoming>, now: int, startOfDay: int -> int, engines: map<int, TeamEngines>)
    returns (results: seq<TeamResult>)
    ensures var f := ResolveFilters(body);
      var c := CandidatesOf(upcoming, f.nextMatch, now, startOfDay);
      results == AllResults(c.order, c.meta, f, engines)
  {
    var filters := ResolveFilters(body);
    var order, meta := BuildCandidates(upcoming, filters.nextMatch, now, startOfDay);
    if |order| == 0 {
      return [];
    }
    results := CollectResults(order, meta, filters, engines);
  }

  // ---------------------------------------------------------------- properties

  lemma {:induction false} TeamResultsSound(team: int, meta: map<int, Candidate>, markets: seq<string>, e: TeamEngines, f: SearchFilters)
    ensures forall r | r in TeamResults(team, meta, markets, e, f) ::
      && r.id == team
      && r.market in markets
      && PickProb(r.market, e.stats, e.streaks).Some?
      && var p := PickProb(r.market, e.stats, e.streaks).value;
         PassesBands(p, f) && r == ResultOf(team, meta, r.market, p)
  {
    if |markets| > 0 {
      TeamResultsSound(team, meta, markets[..|markets| - 1], e, f);
    }
  }

  /** Every result is a candidate team with engine output and a checked market that the
      resolver knows, its green and blue inside the bands, `probBlue` the blue percent
      with null read as 0, and `aboveAverage` exactly `green >= 50`. */
  lemma {:induction false} AllResultsSound(teams: seq<int>, meta: map<int, Candidate>, f: SearchFilters, engines: map<int, TeamEngines>)
    ensures forall r | r in AllResults(teams, meta, f, engines) ::
      && r.id in teams && r.id in engines
      && r.market in MarketsToCheck(f) && r.market in Markets
      && var p := PickProb(r.market, engines[r.id].stats, engines[r.id].streaks).value;
         && PassesBands(p, f)
         && r.probGreen == p.green && r.probBlue == p.blue.GetOr(0)
         && (r.aboveAverage <==> r.probGreen >= 50)
  {
    if |teams| > 0 {
      var team := teams[|teams| - 1];
      AllResultsSound(teams[..|teams| - 1], meta, f, engines);
      if team in engines {
        TeamResultsSound(team, meta, MarketsToCheck(f), engines[team], f);
      }
    }
  }

  lemma {:induction false} TeamResultsComplete(team: int, meta: map<int, Candidate>, markets: seq<string>, e: TeamEngines, f: SearchFilters, m: string)
    requires m in markets
    requires PickProb(m, e.stats, e.streaks).Some? && PassesBands(PickProb(m, e.stats, e.streaks).value, f)
    ensures ResultOf(team, meta, m, PickProb(m, e.stats, e.streaks).value) in TeamResults(team, meta, markets, e, f)
  {
    if markets[|markets| - 1] != m {
      TeamResultsComplete(team, meta, markets[..|markets| - 1], e, f, m);
    }
  }

  /** No pair is lost: a candidate team with engine output and a checked market whose
      percents pass the bands is in the results. */
  lemma {:induction false} AllResultsComplete(teams: seq<int>, meta: map<int, Candidate>, f: SearchFilters, engines: map<int, TeamEngines>, team: int, m: string)
    requires team in teams && team in engines && m in MarketsToCheck(f)
    requires PickProb(m, engines[team].stats, engines[team].streaks).Some?
    requires PassesBands(PickProb(m, engines[team].stats, engines[team].streaks).value, f)
    ensures ResultOf(team, meta, m, PickProb(m, engines[team].stats, engines[team].streaks).value) in AllResults(teams, meta, f, engines)
  {
    var last := teams[|teams| - 1];
    if last == team {
      TeamResultsComplete(team, meta, MarketsToCheck(f), engines[team], f, m);
    } else {
      AllResultsComplete(teams[..|teams| - 1], meta, f, engines, team, m);
    }
  }
}
