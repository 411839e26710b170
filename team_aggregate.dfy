/** The in-memory part of loading a team page: keep the played fixtures (optionally the
    current season only), order them most recent first, cut them to the requested
    range, see each from the team's side, and tally results, goals, form, BTTS and
    over 2.5 with their rates. Fetching the rows is not part of this model. */
module TeamAggregate {
  import opened Common

  /** One row of the fixtures table; `dateUtc` is the kickoff as a timestamp and a
      null score is `None`. */
  datatype Row = Row(dateUtc: int, season: int, homeTeamId: int, goalsHome: Option<int>, goalsAway: Option<int>)

  /** The `range` argument: a number of most recent fixtures, or "season". */
  datatype Range = Last(n: int) | Season

  const CURRENT_SEASON: int := 2025

  /** A fixture seen from the team's side, with both scores known. */
  datatype Match = Match(dateUtc: int, season: int, homeTeamId: int, goalsHome: int, goalsAway: int, isHome: bool)

  datatype EngineStats = EngineStats(
    played: nat,
    wins: nat,
    draws: nat,
    losses: nat,
    goalsFor: int,
    goalsAgainst: int,
    goalDiff: int,
    winRate: int,
    bttsPercent: int,
    over25Percent: int,
    form: seq<char>)

  // ---------------------------------------------------------------- selection

  predicate IsPlayed(r: Row) { r.goalsHome.Some? && r.goalsAway.Some? }
  predicate InCurrentSeason(r: Row) { r.season == CURRENT_SEASON }

  /** Rows with both scores, and for "season" only those of the current season. */
  function PlayedRows(all: seq<Row>, range: Range): (played: seq<Row>)
    ensures |played| <= |all|
    ensures forall i :: 0 <= i < |played| ==> IsPlayed(played[i]) && played[i] in all
    ensures range.Season? ==> forall i :: 0 <= i < |played| ==> InCurrentSeason(played[i])
    ensures forall i | 0 <= i < |all| ::
      IsPlayed(all[i]) && (range.Season? ==> InCurrentSeason(all[i])) ==> all[i] in played
  {
    var played := Filter(all, IsPlayed);
    if range.Season? then Filter(played, InCurrentSeason) else played
  }

  /** Each played row of the range is kept as many times as it occurs in `all`, and no
      other row is kept. */
  lemma PlayedRowsMultiplicity(all: seq<Row>, range: Range)
    ensures forall r :: multiset(PlayedRows(all, range))[r] ==
                        if IsPlayed(r) && (range.Season? ==> InCurrentSeason(r)) then multiset(all)[r] else 0
  {
    FilterMultiplicity(all, IsPlayed);
    FilterMultiplicity(Filter(all, IsPlayed), InCurrentSeason);
  }

  predicate SortedDesc(s: seq<Row>) {
    forall i, j :: 0 <= i < j < |s| ==> s[i].dateUtc >= s[j].dateUtc
  }

  /** Puts `x` behind every row at least as recent: the step of a stable sort on a
      comparator `b.date - a.date`. */
  function Insert(s: seq<Row>, x: Row): seq<Row>
  {
    if |s| == 0 || s[|s| - 1].dateUtc >= x.dateUtc then s + [x]
    else Insert(s[..|s| - 1], x) + [s[|s| - 1]]
  }

  /** The order `Array.prototype.sort` (stable) gives: most recent first, ties in their
      original order. */
  function SortDesc(s: seq<Row>): seq<Row>
  {
    if |s| == 0 then [] else Insert(SortDesc(s[..|s| - 1]), s[|s| - 1])
  }

  predicate AllAtLeast(s: seq<Row>, d: int) {
    forall k :: 0 <= k < |s| ==> s[k].dateUtc >= d
  }

  lemma {:induction false} InsertLength(s: seq<Row>, x: Row)
    ensures |Insert(s, x)| == |s| + 1
    ensures multiset(Insert(s, x)) == multiset(s) + multiset{x}
  {
    if |s| > 0 && s[|s| - 1].dateUtc < x.dateUtc {
      InsertLength(s[..|s| - 1], x);
      assert s == s[..|s| - 1] + [s[|s| - 1]];
    }
  }

  lemma {:induction false} InsertAtLeast(s: seq<Row>, x: Row, d: int)
    requires AllAtLeast(s, d) && x.dateUtc >= d
    ensures AllAtLeast(Insert(s, x), d)
  {
    if |s| > 0 && s[|s| - 1].dateUtc < x.dateUtc {
      InsertAtLeast(s[..|s| - 1], x, d);
    }
  }

  lemma {:induction false} InsertSorted(s: seq<Row>, x: Row)
    requires SortedDesc(s)
    ensures SortedDesc(Insert(s, x))
  {
    if |s| > 0 && s[|s| - 1].dateUtc < x.dateUtc {
      var init := s[..|s| - 1];
      var last := s[|s| - 1];
      InsertSorted(init, x);
      InsertAtLeast(init, x, last.dateUtc);
      InsertLength(init, x);
      var r := Insert(init, x);
      assert Insert(s, x) == r + [last];
    }
  }

  /** Rows dated `d`. */
  function HasDate(d: int): Row -> bool {
    (r: Row) => r.dateUtc == d
  }

  /** Inserting `x` keeps the rows of each date in their order, with `x` last among its
      own date. */
  lemma {:induction false} InsertStable(t: seq<Row>, x: Row, d: int)
    ensures Filter(Insert(t, x), HasDate(d)) == Filter(t, HasDate(d)) + (if x.dateUtc == d then [x] else [])
  {
    if |t| == 0 || t[|t| - 1].dateUtc >= x.dateUtc {
      assert (t + [x])[..|t|] == t;
    } else {
      var init := t[..|t| - 1];
      var last := t[|t| - 1];
      InsertStable(init, x, d);
      assert (Insert(init, x) + [last])[..|Insert(init, x)|] == Insert(init, x);
      assert init + [last] == t;
    }
  }

  /** The sort is stable: the rows of any one date appear in the order of the input. */
  lemma {:induction false} SortDescStable(s: seq<Row>, d: int)
    ensures Filter(SortDesc(s), HasDate(d)) == Filter(s, HasDate(d))
  {
    if |s| > 0 {
      var init := s[..|s| - 1];
      SortDescStable(init, d);
      InsertStable(SortDesc(init), s[|s| - 1], d);
      assert init + [s[|s| - 1]] == s;
    }
  }

  /** The sort yields the rows most recent first, and the same rows. */
  lemma {:induction false} SortDescCorrect(s: seq<Row>)
    ensures SortedDesc(SortDesc(s))
    ensures multiset(SortDesc(s)) == multiset(s)
    ensures |SortDesc(s)| == |s|
  {
    if |s| > 0 {
      var init := s[..|s| - 1];
      assert s == init + [s[|s| - 1]];
      SortDescCorrect(init);
      InsertSorted(SortDesc(init), s[|s| - 1]);
      InsertLength(SortDesc(init), s[|s| - 1]);
    }
  }

  /** `played.sort((a, b) => date(b) - date(a))`, in place: insertion sort. */
  method SortByDateDesc(a: array<Row>)
    modifies a
    ensures a[..] == SortDesc(old(a[..]))
  {
    ghost var input := a[..];
    var i := 0;
    while i < a.Length
      invariant 0 <= i <= a.Length
      invariant a[..i] == SortDesc(input[..i])
      invariant a[i..] == input[i..]
    {
      assert input[..i + 1] == input[..i] + [input[i]];
      assert input[..i + 1][..i] == input[..i];
      InsertNext(a, i);
      i := i + 1;
    }
    assert a[..] == a[..a.Length];
    assert input == input[..a.Length];
  }

  /** One step of the sort: `a[i]` moves left past every less recent row before it. */
  method InsertNext(a: array<Row>, i: int)
    requires 0 <= i < a.Length
    modifies a
    ensures a[..i + 1] == Insert(old(a[..i]), old(a[i]))
    ensures a[i + 1..] == old(a[i + 1..])
  {
    var x := a[i];
    ghost var sorted := a[..i];
    ghost var rest := a[i + 1..];
    assert sorted[..i] == sorted && sorted[i..i] == [];
    assert a[..] == sorted[..i] + [x] + sorted[i..i] + rest;
    var j := i;
    while j > 0 && a[j - 1].dateUtc < x.dateUtc
      invariant 0 <= j <= i
      invariant a[..] == sorted[..j] + [x] + sorted[j..i] + rest
      invariant Insert(sorted, x) == Insert(sorted[..j], x) + sorted[j..i]
    {
      ShiftStep(sorted, x, j, i);
      ghost var before := a[..];
      a[j - 1], a[j] := a[j], a[j - 1];
      SwapStep(before, a[..], sorted, x, rest, j, i);
      j := j - 1;
    }
    InsertStops(sorted, x, j);
    SplitAt(a[..], sorted[..j] + [x] + sorted[j..i], rest);
  }

  /** Swapping the row with its left neighbour moves it one place left. */
  lemma SwapStep(before: seq<Row>, after: seq<Row>, sorted: seq<Row>, x: Row, rest: seq<Row>, j: int, i: int)
    requires 0 < j <= i == |sorted|
    requires before == sorted[..j] + [x] + sorted[j..i] + rest
    requires |after| == |before|
    requires after[j - 1] == before[j] && after[j] == before[j - 1]
    requires forall k :: 0 <= k < |before| && k != j - 1 && k != j ==> after[k] == before[k]
    ensures after == sorted[..j - 1] + [x] + sorted[j - 1..i] + rest
  {
    var target := sorted[..j - 1] + [x] + sorted[j - 1..i] + rest;
    assert |after| == |target|;
    forall k | 0 <= k < |after|
      ensures after[k] == target[k]
    {
      if k < j - 1 {
        assert before[k] == sorted[k];
      } else if k == j - 1 {
      } else if k == j {
        assert before[j - 1] == sorted[j - 1];
      } else if k <= i {
        assert before[k] == sorted[k - 1];
      } else {
        assert before[k] == rest[k - i - 1];
      }
    }
  }

  /** A sequence built as a prefix and a suffix splits back into them. */
  lemma SplitAt(whole: seq<Row>, prefix: seq<Row>, suffix: seq<Row>)
    requires whole == prefix + suffix
    ensures whole[..|prefix|] == prefix && whole[|prefix|..] == suffix
  {
  }

  /** Where the shifting stops, the row goes right after the more recent prefix. */
  lemma InsertStops(sorted: seq<Row>, x: Row, j: int)
    requires 0 <= j <= |sorted|
    requires j == 0 || sorted[j - 1].dateUtc >= x.dateUtc
    ensures Insert(sorted[..j], x) == sorted[..j] + [x]
  {
  }

  lemma ShiftStep(sorted: seq<Row>, x: Row, j: int, i: int)
    requires 0 < j <= i == |sorted|
    requires sorted[j - 1].dateUtc < x.dateUtc
    ensures Insert(sorted[..j], x) + sorted[j..i] == Insert(sorted[..j - 1], x) + sorted[j - 1..i]
  {
    assert sorted[..j][..j - 1] == sorted[..j - 1];
    assert sorted[j - 1..i] == [sorted[j - 1]] + sorted[j..i];
  }

  /** `slice(0, n)` on a list of length `len`: where the kept prefix ends. A negative
      `n` counts back from the end. */
  function SliceEnd(n: int, len: nat): (e: nat)
    ensures e <= len
    ensures n >= 0 ==> e == (if n < len then n else len)
    ensures n < 0 ==> e == (if len + n > 0 then len + n else 0)
  {
    if n < 0 then (if len + n > 0 then len + n else 0)
    else if n < len then n
    else len
  }

  /** The row seen from team `id`: home when its home team is `id`. */
  function ToMatch(r: Row, id: int): Match
    requires IsPlayed(r)
  {
    Match(r.dateUtc, r.season, r.homeTeamId, r.goalsHome.value, r.goalsAway.value, r.homeTeamId == id)
  }

  function Perspective(rows: seq<Row>, id: int): (ms: seq<Match>)
    requires forall i :: 0 <= i < |rows| ==> IsPlayed(rows[i])
    ensures |ms| == |rows|
    ensures forall i :: 0 <= i < |rows| ==> ms[i] == ToMatch(rows[i], id)
  {
    seq(|rows|, i requires 0 <= i < |rows| => ToMatch(rows[i], id))
  }

  /** How many sorted rows the range keeps. */
  function RangeEnd(range: Range, len: nat): nat {
    if range.Season? then len else SliceEnd(range.n, len)
  }

  /** The played rows in the order the sort leaves them. */
  function SortedPlayed(all: seq<Row>, range: Range): (sorted: seq<Row>)
    ensures |sorted| == |PlayedRows(all, range)|
    ensures forall i :: 0 <= i < |sorted| ==> IsPlayed(sorted[i])
  {
    var played := PlayedRows(all, range);
    SortDescCorrect(played);
    PlayedSurvivesSort(played);
    SortDesc(played)
  }

  lemma PlayedSurvivesSort(played: seq<Row>)
    requires forall i :: 0 <= i < |played| ==> IsPlayed(played[i])
    ensures forall i :: 0 <= i < |SortDesc(played)| ==> IsPlayed(SortDesc(played)[i]) && SortDesc(played)[i] in played
  {
    SortDescCorrect(played);
    forall i | 0 <= i < |SortDesc(played)|
      ensures IsPlayed(SortDesc(played)[i]) && SortDesc(played)[i] in played
    {
      assert SortDesc(played)[i] in multiset(SortDesc(played));
    }
  }

  /** The fixtures the statistics are taken over. */
  function Selected(all: seq<Row>, id: int, range: Range): seq<Match> {
    var sorted := SortedPlayed(all, range);
    Perspective(sorted[..RangeEnd(range, |sorted|)], id)
  }

  // ---------------------------------------------------------------- tally

  /** Goals for and against from the team's side. */
  function GoalsFor(m: Match): int { if m.isHome then m.goalsHome else m.goalsAway }
  function GoalsAgainst(m: Match): int { if m.isHome then m.goalsAway else m.goalsHome }

  predicate IsWin(m: Match) { GoalsFor(m) > GoalsAgainst(m) }
  predicate IsDraw(m: Match) { GoalsFor(m) == GoalsAgainst(m) }
  predicate IsLoss(m: Match) { GoalsFor(m) < GoalsAgainst(m) }
  predicate IsBtts(m: Match) { m.goalsHome > 0 && m.goalsAway > 0 }
  predicate IsOver25(m: Match) { m.goalsHome + m.goalsAway >= 3 }

  function FormLetter(m: Match): char {
    if IsWin(m) then 'W' else if IsDraw(m) then 'D' else 'L'
  }

  /** One letter per match, in match order. */
  function Form(ms: seq<Match>): seq<char> {
    if |ms| == 0 then [] else Form(ms[..|ms| - 1]) + [FormLetter(ms[|ms| - 1])]
  }

  function SumOf(ms: seq<Match>, f: Match -> int): int {
    if |ms| == 0 then 0 else SumOf(ms[..|ms| - 1], f) + f(ms[|ms| - 1])
  }

  /** A rate in percent: 0 when nothing was played. */
  function Rate(count: nat, played: nat): int {
    if played == 0 then 0 else RoundPct(count, played)
  }

  /** What the tally computes, as a function of the selected matches. */
  function Aggregate(ms: seq<Match>): EngineStats {
    var played := |ms|;
    var wins := Count(ms, IsWin);
    var goalsFor := SumOf(ms, GoalsFor);
    var goalsAgainst := SumOf(ms, GoalsAgainst);
    EngineStats(
      played, wins, Count(ms, IsDraw), Count(ms, IsLoss),
      goalsFor, goalsAgainst, goalsFor - goalsAgainst,
      Rate(wins, played), Rate(Count(ms, IsBtts), played), Rate(Count(ms, IsOver25), played),
      Form(ms))
  }

  /** The `forEach` that accumulates counters, goal sums and the form string. */
  method Tally(ms: seq<Match>) returns (st: EngineStats)
    ensures st == Aggregate(ms)
  {
    var wins, draws, losses, goalsFor, goalsAgainst, bttsCount, over25Count, form := Accumulate(ms);
    var playedCount := |ms|;
    st := EngineStats(
      playedCount, wins, draws, losses, goalsFor, goalsAgainst, goalsFor - goalsAgainst,
      if playedCount > 0 then RoundPct(wins, playedCount) else 0,
      if playedCount > 0 then RoundPct(bttsCount, playedCount) else 0,
      if playedCount > 0 then RoundPct(over25Count, playedCount) else 0,
      form);
  }

  /** The loop of the tally: one pass over the matches, bumping every counter. */
  method Accumulate(ms: seq<Match>)
    returns (wins: nat, draws: nat, losses: nat, goalsFor: int, goalsAgainst: int,
             bttsCount: nat, over25Count: nat, form: seq<char>)
    ensures wins == Count(ms, IsWin) && draws == Count(ms, IsDraw) && losses == Count(ms, IsLoss)
    ensures goalsFor == SumOf(ms, GoalsFor) && goalsAgainst == SumOf(ms, GoalsAgainst)
    ensures bttsCount == Count(ms, IsBtts) && over25Count == Count(ms, IsOver25)
    ensures form == Form(ms)
  {
    wins, draws, losses := 0, 0, 0;
    goalsFor, goalsAgainst := 0, 0;
    bttsCount, over25Count := 0, 0;
    form := [];
    var i := 0;
    while i < |ms|
      invariant 0 <= i <= |ms|
      invariant wins == Count(ms[..i], IsWin)
      invariant draws == Count(ms[..i], IsDraw)
      invariant losses == Count(ms[..i], IsLoss)
      invariant goalsFor == SumOf(ms[..i], GoalsFor)
      invariant goalsAgainst == SumOf(ms[..i], GoalsAgainst)
      invariant bttsCount == Count(ms[..i], IsBtts)
      invariant over25Count == Count(ms[..i], IsOver25)
      invariant form == Form(ms[..i])
    {
      var g := ms[i];
      assert ms[..i + 1] == ms[..i] + [g];
      assert ms[..i + 1][..i] == ms[..i];
      TallyStep(ms[..i], g);
      var gf := if g.isHome then g.goalsHome else g.goalsAway;
      var ga := if g.isHome then g.goalsAway else g.goalsHome;

      goalsFor := goalsFor + gf;
      goalsAgainst := goalsAgainst + ga;
      wins, draws, losses, form := TallyOutcome(wins, draws, losses, form, gf, ga);

      if g.goalsHome > 0 && g.goalsAway > 0 {
        bttsCount := bttsCount + 1;
      }
      if g.goalsHome + g.goalsAway >= 3 {
        over25Count := over25Count + 1;
      }
      i := i + 1;
    }
    assert ms[..i] == ms;
  }

  /** The counter one match bumps, and the letter it adds to the form. */
  method TallyOutcome(wins: nat, draws: nat, losses: nat, form: seq<char>, gf: int, ga: int)
    returns (wins': nat, draws': nat, losses': nat, form': seq<char>)
    ensures wins' == wins + (if gf > ga then 1 else 0)
    ensures draws' == draws + (if gf == ga then 1 else 0)
    ensures losses' == losses + (if gf < ga then 1 else 0)
    ensures form' == form + [if gf > ga then 'W' else if gf == ga then 'D' else 'L']
  {
    wins', draws', losses' := wins, draws, losses;
    if gf > ga {
      wins' := wins' + 1;
      form' := form + ['W'];
    } else if gf == ga {
      draws' := draws' + 1;
      form' := form + ['D'];
    } else {
      losses' := losses' + 1;
      form' := form + ['L'];
    }
  }

  /** How every tally changes when one match is added. */
  lemma TallyStep(prefix: seq<Match>, g: Match)
    ensures Count(prefix + [g], IsWin) == Count(prefix, IsWin) + (if IsWin(g) then 1 else 0)
    ensures Count(prefix + [g], IsDraw) == Count(prefix, IsDraw) + (if IsDraw(g) then 1 else 0)
    ensures Count(prefix + [g], IsLoss) == Count(prefix, IsLoss) + (if IsLoss(g) then 1 else 0)
    ensures Count(prefix + [g], IsBtts) == Count(prefix, IsBtts) + (if IsBtts(g) then 1 else 0)
    ensures Count(prefix + [g], IsOver25) == Count(prefix, IsOver25) + (if IsOver25(g) then 1 else 0)
    ensures SumOf(prefix + [g], GoalsFor) == SumOf(prefix, GoalsFor) + GoalsFor(g)
    ensures SumOf(prefix + [g], GoalsAgainst) == SumOf(prefix, GoalsAgainst) + GoalsAgainst(g)
    ensures Form(prefix + [g]) == Form(prefix) + [FormLetter(g)]
  {
    CountSnoc(prefix, g, IsWin);
    CountSnoc(prefix, g, IsDraw);
    CountSnoc(prefix, g, IsLoss);
    CountSnoc(prefix, g, IsBtts);
    CountSnoc(prefix, g, IsOver25);
    assert (prefix + [g])[..|prefix|] == prefix;
  }

  /** The pure part of `loadTeamData`: no statistics when the team has no fixtures at
      all, otherwise the selected matches and their tally. */
  method LoadTeamStats(all: seq<Row>, id: int, range: Range) returns (fixtures: seq<Match>, stats: Option<EngineStats>)
    ensures |all| == 0 ==> fixtures == [] && stats == None
    ensures |all| > 0 ==> fixtures == Selected(all, id, range) && stats == Some(Aggregate(fixtures))
  {
    fixtures, stats := [], None;
    if |all| > 0 {
      var played := PlayedRows(all, range);
      var a := new Row[|played|](i requires 0 <= i < |played| => played[i]);
      assert a[..] == played;
      SortByDateDesc(a);
      var selectedFilterValue := if range.Season? then a.Length else range.n;
      var rawFixtures := a[..SliceEnd(selectedFilterValue, a.Length)];
      assert a[..] == SortedPlayed(all, range);
      fixtures := Perspective(rawFixtures, id);
      var engineStats := Tally(fixtures);
      stats := Some(engineStats);
    }
  }

  // ---------------------------------------------------------------- properties

  /** The selection keeps only played rows of `all` (of the current season for
      "season"), most recent first, and no more of them than there are. */
  lemma SelectedRows(all: seq<Row>, id: int, range: Range)
    ensures var ms := Selected(all, id, range);
      && |ms| <= |PlayedRows(all, range)|
      && (forall i, j :: 0 <= i < j < |ms| ==> ms[i].dateUtc >= ms[j].dateUtc)
      && (forall i :: 0 <= i < |ms| ==>
            (exists r :: r in all && IsPlayed(r) && ms[i] == ToMatch(r, id))
            && (range.Season? ==> ms[i].season == CURRENT_SEASON))
  {
    var played := PlayedRows(all, range);
    var sorted := SortedPlayed(all, range);
    SortDescCorrect(played);
    PlayedSurvivesSort(played);
    var ms := Selected(all, id, range);
    forall i | 0 <= i < |ms|
      ensures (exists r :: r in all && IsPlayed(r) && ms[i] == ToMatch(r, id))
        && (range.Season? ==> ms[i].season == CURRENT_SEASON)
    {
      var r := sorted[i];
      assert r in played;
      assert ms[i] == ToMatch(r, id);
    }
  }

  /** The selection is the team's view of the first `k` sorted rows, where the sorted
      rows are the played rows (each as often as it occurs), and every kept row is at
      least as recent as every dropped one. */
  lemma SelectedMostRecent(all: seq<Row>, id: int, range: Range)
    ensures var sorted := SortedPlayed(all, range);
      var k := RangeEnd(range, |sorted|);
      && Selected(all, id, range) == Perspective(sorted[..k], id)
      && multiset(sorted) == multiset(PlayedRows(all, range))
      && (forall i, j :: 0 <= i < k <= j < |sorted| ==> sorted[i].dateUtc >= sorted[j].dateUtc)
  {
    SortDescCorrect(PlayedRows(all, range));
  }

  /** A numeric range keeps exactly that many fixtures when there are enough (all of
      them otherwise); "season" keeps every played fixture of the season. */
  lemma SelectedCount(all: seq<Row>, id: int, range: Range)
    ensures var n := |PlayedRows(all, range)|;
      && (range.Season? ==> |Selected(all, id, range)| == n)
      && (range.Last? && range.n >= 0 ==> |Selected(all, id, range)| == if range.n < n then range.n else n)
  {
  }

  /** The team is at home exactly when the row's home team is the team; goals for and
      against are that side's and the other side's. */
  lemma SelectedPerspective(all: seq<Row>, id: int, range: Range, i: int)
    requires 0 <= i < |Selected(all, id, range)|
    ensures var m := Selected(all, id, range)[i];
      && m.isHome == (m.homeTeamId == id)
      && (m.homeTeamId == id ==> GoalsFor(m) == m.goalsHome && GoalsAgainst(m) == m.goalsAway)
      && (m.homeTeamId != id ==> GoalsFor(m) == m.goalsAway && GoalsAgainst(m) == m.goalsHome)
  {
  }

  lemma {:induction false} FormLength(ms: seq<Match>)
    ensures |Form(ms)| == |ms|
    ensures forall i :: 0 <= i < |ms| ==> Form(ms)[i] == FormLetter(ms[i])
  {
    if |ms| > 0 {
      FormLength(ms[..|ms| - 1]);
    }
  }

  /** Results: wins, draws and losses add up to the matches played; the form has one
      letter per match, "W", "D" or "L" exactly as the match was won, drawn or lost. */
  lemma AggregateResults(ms: seq<Match>)
    ensures var st := Aggregate(ms);
      && st.wins + st.draws + st.losses == st.played == |ms|
      && |st.form| == st.played
      && forall i :: 0 <= i < |ms| ==>
           && (st.form[i] == 'W' <==> GoalsFor(ms[i]) > GoalsAgainst(ms[i]))
           && (st.form[i] == 'D' <==> GoalsFor(ms[i]) == GoalsAgainst(ms[i]))
           && (st.form[i] == 'L' <==> GoalsFor(ms[i]) < GoalsAgainst(ms[i]))
  {
    CountPartition3(ms, IsWin, IsDraw, IsLoss);
    FormLength(ms);
  }

  function LetterIs(c: char): char -> bool { x => x == c }

  lemma {:induction false} FormCounts(ms: seq<Match>)
    ensures Count(Form(ms), LetterIs('W')) == Count(ms, IsWin)
    ensures Count(Form(ms), LetterIs('D')) == Count(ms, IsDraw)
    ensures Count(Form(ms), LetterIs('L')) == Count(ms, IsLoss)
  {
    if |ms| > 0 {
      var init := ms[..|ms| - 1];
      FormCounts(init);
      CountSnoc(Form(init), FormLetter(ms[|ms| - 1]), LetterIs('W'));
      CountSnoc(Form(init), FormLetter(ms[|ms| - 1]), LetterIs('D'));
      CountSnoc(Form(init), FormLetter(ms[|ms| - 1]), LetterIs('L'));
    }
  }

  /** The form string agrees with the counters: as many "W" as wins, "D" as draws and
      "L" as losses. */
  lemma AggregateFormMatchesCounts(ms: seq<Match>)
    ensures var st := Aggregate(ms);
      && Count(st.form, LetterIs('W')) == st.wins
      && Count(st.form, LetterIs('D')) == st.draws
      && Count(st.form, LetterIs('L')) == st.losses
  {
    FormCounts(ms);
  }

  function TotalGoals(m: Match): int { m.goalsHome + m.goalsAway }

  lemma {:induction false} SumSplit(ms: seq<Match>)
    ensures SumOf(ms, GoalsFor) + SumOf(ms, GoalsAgainst) == SumOf(ms, TotalGoals)
  {
    if |ms| > 0 {
      SumSplit(ms[..|ms| - 1]);
    }
  }

  /** Goals: for plus against is every goal scored in the matches, whichever side the
      team played, and the goal difference is for minus against. */
  lemma AggregateGoals(ms: seq<Match>)
    ensures var st := Aggregate(ms);
      && st.goalsFor + st.goalsAgainst == SumOf(ms, TotalGoals)
      && st.goalDiff == st.goalsFor - st.goalsAgainst
  {
    SumSplit(ms);
  }

  /** Rates: 0 with no match played, otherwise count * 100 / played rounded, in 0..100. */
  lemma AggregateRates(ms: seq<Match>)
    ensures var st := Aggregate(ms);
      && (|ms| == 0 ==> st.winRate == st.bttsPercent == st.over25Percent == 0)
      && (|ms| > 0 ==>
           && st.winRate == RoundPct(Count(ms, IsWin), |ms|)
           && st.bttsPercent == RoundPct(Count(ms, IsBtts), |ms|)
           && st.over25Percent == RoundPct(Count(ms, IsOver25), |ms|)
           && 0 <= st.winRate <= 100 && 0 <= st.bttsPercent <= 100 && 0 <= st.over25Percent <= 100)
  {
  }
}
