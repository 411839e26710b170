/** The second-half period engine: one counting pass over a team's fixtures giving
    win/draw/lose, BTTS, clean-sheet and over/under counts, each with its percent. */
module SecondHalf {
  import opened Common

  /** A fixture seen from the team's side. Any of the four scores may be null. */
  datatype Fixture = Fixture(
    goalsForFull: Option<int>,
    goalsForHt: Option<int>,
    goalsAgainstFull: Option<int>,
    goalsAgainstHt: Option<int>)

  /** A count with its rounded share of the total. */
  datatype Stat = Stat(count: nat, percent: int)

  datatype Stats = Stats(
    total: nat,
    win: Stat,
    draw: Stat,
    lose: Stat,
    btts: Stat,
    cleanSheet: Stat,
    over: map<int, Stat>,
    under: map<int, Stat>)

  /** The goal lines 0.5, 1.5 and 2.5, written in tenths of a goal. */
  const Lines: seq<int> := [5, 15, 25]
  const LineSet: set<int> := {5, 15, 25}

  /** Second-half goals: full time minus half time, a null score read as 0 and the
      difference not clamped, so inconsistent scores give negative goals. */
  function GoalsFor2H(f: Fixture): int {
    f.goalsForFull.GetOr(0) - f.goalsForHt.GetOr(0)
  }

  function GoalsAgainst2H(f: Fixture): int {
    f.goalsAgainstFull.GetOr(0) - f.goalsAgainstHt.GetOr(0)
  }

  predicate IsWin(f: Fixture) { GoalsFor2H(f) > GoalsAgainst2H(f) }
  predicate IsLose(f: Fixture) { GoalsFor2H(f) < GoalsAgainst2H(f) }
  predicate IsDraw(f: Fixture) { !IsWin(f) && !IsLose(f) }
  predicate IsBtts(f: Fixture) { GoalsFor2H(f) > 0 && GoalsAgainst2H(f) > 0 }
  predicate IsCleanSheet(f: Fixture) { GoalsAgainst2H(f) == 0 }

  /** Over a line is strict: total goals > line; a total equal to the line is under. */
  predicate IsOver(f: Fixture, line: int) {
    10 * (GoalsFor2H(f) + GoalsAgainst2H(f)) > line
  }

  function OverAt(line: int): Fixture -> bool { f => IsOver(f, line) }
  function UnderAt(line: int): Fixture -> bool { f => !IsOver(f, line) }

  /** The divisor of every percent: the number of fixtures, or 1 when there are none. */
  function Divisor(fixtures: seq<Fixture>): nat {
    if |fixtures| == 0 then 1 else |fixtures|
  }

  function StatOf(count: nat, total: nat): Stat
    requires total > 0
  {
    Stat(count, RoundPct(count, total))
  }

  /** What the counting pass computes, as a function of the fixtures. */
  function Summary2H(fixtures: seq<Fixture>): Stats {
    var total := Divisor(fixtures);
    Stats(
      total,
      StatOf(Count(fixtures, IsWin), total),
      StatOf(Count(fixtures, IsDraw), total),
      StatOf(Count(fixtures, IsLose), total),
      StatOf(Count(fixtures, IsBtts), total),
      StatOf(Count(fixtures, IsCleanSheet), total),
      map line | line in LineSet :: StatOf(Count(fixtures, OverAt(line)), total),
      map line | line in LineSet :: StatOf(Count(fixtures, UnderAt(line)), total))
  }

  /** The engine itself: the counting pass, then every count with its percent. */
  method Compute2H(fixtures: seq<Fixture>) returns (s: Stats)
    ensures s == Summary2H(fixtures)
  {
    var total := if |fixtures| == 0 then 1 else |fixtures|;
    var win, draw, lose, btts, cleanSheet, overs, unders := CountPass(fixtures);
    var overStats := map line | line in overs :: Stat(overs[line], RoundPct(overs[line], total));
    var underStats := map line | line in unders :: Stat(unders[line], RoundPct(unders[line], total));
    assert overStats == Summary2H(fixtures).over;
    assert underStats == Summary2H(fixtures).under;
    s := Stats(
      total,
      Stat(win, RoundPct(win, total)),
      Stat(draw, RoundPct(draw, total)),
      Stat(lose, RoundPct(lose, total)),
      Stat(btts, RoundPct(btts, total)),
      Stat(cleanSheet, RoundPct(cleanSheet, total)),
      overStats,
      underStats);
  }

  /** The loop over the fixtures: it bumps one result counter, the BTTS and
      clean-sheet counters, and one of over/under for every line. */
  method CountPass(fixtures: seq<Fixture>)
    returns (win: nat, draw: nat, lose: nat, btts: nat, cleanSheet: nat, overs: map<int, nat>, unders: map<int, nat>)
    ensures win == Count(fixtures, IsWin) && draw == Count(fixtures, IsDraw) && lose == Count(fixtures, IsLose)
    ensures btts == Count(fixtures, IsBtts) && cleanSheet == Count(fixtures, IsCleanSheet)
    ensures overs.Keys == LineSet && unders.Keys == LineSet
    ensures forall line | line in LineSet ::
      overs[line] == Count(fixtures, OverAt(line)) && unders[line] == Count(fixtures, UnderAt(line))
  {
    win, draw, lose, btts, cleanSheet := 0, 0, 0, 0, 0;
    overs := map[5 := 0, 15 := 0, 25 := 0];
    unders := map[5 := 0, 15 := 0, 25 := 0];
    var i := 0;
    while i < |fixtures|
      invariant 0 <= i <= |fixtures|
      invariant win == Count(fixtures[..i], IsWin)
      invariant draw == Count(fixtures[..i], IsDraw)
      invariant lose == Count(fixtures[..i], IsLose)
      invariant btts == Count(fixtures[..i], IsBtts)
      invariant cleanSheet == Count(fixtures[..i], IsCleanSheet)
      invariant overs.Keys == LineSet && unders.Keys == LineSet
      invariant forall line | line in LineSet ::
        overs[line] == Count(fixtures[..i], OverAt(line)) && unders[line] == Count(fixtures[..i], UnderAt(line))
    {
      var f := fixtures[i];
      assert fixtures[..i + 1] == fixtures[..i] + [f];
      var gf := f.goalsForFull.GetOr(0) - f.goalsForHt.GetOr(0);
      var ga := f.goalsAgainstFull.GetOr(0) - f.goalsAgainstHt.GetOr(0);
      var totalGoals := gf + ga;

      CountStep(fixtures[..i], f);
      assert gf == GoalsFor2H(f) && ga == GoalsAgainst2H(f);
      assert forall line :: IsOver(f, line) <==> 10 * totalGoals > line;
      win, draw, lose, btts, cleanSheet := TallyResult(win, draw, lose, btts, cleanSheet, gf, ga);
      overs, unders := TallyLines(overs, unders, totalGoals);
      i := i + 1;
    }
    assert fixtures[..i] == fixtures;
  }

  /** The counters one fixture bumps: one of win/lose/draw, then BTTS and clean sheet. */
  method TallyResult(win: nat, draw: nat, lose: nat, btts: nat, cleanSheet: nat, gf: int, ga: int)
    returns (win': nat, draw': nat, lose': nat, btts': nat, cleanSheet': nat)
    ensures win' == win + (if gf > ga then 1 else 0)
    ensures lose' == lose + (if gf < ga then 1 else 0)
    ensures draw' == draw + (if gf == ga then 1 else 0)
    ensures btts' == btts + (if gf > 0 && ga > 0 then 1 else 0)
    ensures cleanSheet' == cleanSheet + (if ga == 0 then 1 else 0)
  {
    win', draw', lose', btts', cleanSheet' := win, draw, lose, btts, cleanSheet;
    if gf > ga {
      win' := win' + 1;
    } else if gf < ga {
      lose' := lose' + 1;
    } else {
      draw' := draw' + 1;
    }
    if gf > 0 && ga > 0 {
      btts' := btts' + 1;
    }
    if ga == 0 {
      cleanSheet' := cleanSheet' + 1;
    }
  }

  /** How every count changes when one fixture is added. */
  lemma CountStep(prefix: seq<Fixture>, f: Fixture)
    ensures Count(prefix + [f], IsWin) == Count(prefix, IsWin) + (if IsWin(f) then 1 else 0)
    ensures Count(prefix + [f], IsDraw) == Count(prefix, IsDraw) + (if IsDraw(f) then 1 else 0)
    ensures Count(prefix + [f], IsLose) == Count(prefix, IsLose) + (if IsLose(f) then 1 else 0)
    ensures Count(prefix + [f], IsBtts) == Count(prefix, IsBtts) + (if IsBtts(f) then 1 else 0)
    ensures Count(prefix + [f], IsCleanSheet) == Count(prefix, IsCleanSheet) + (if IsCleanSheet(f) then 1 else 0)
    ensures forall line | line in LineSet ::
      && Count(prefix + [f], OverAt(line)) == Count(prefix, OverAt(line)) + (if IsOver(f, line) then 1 else 0)
      && Count(prefix + [f], UnderAt(line)) == Count(prefix, UnderAt(line)) + (if IsOver(f, line) then 0 else 1)
  {
    CountSnoc(prefix, f, IsWin);
    CountSnoc(prefix, f, IsDraw);
    CountSnoc(prefix, f, IsLose);
    CountSnoc(prefix, f, IsBtts);
    CountSnoc(prefix, f, IsCleanSheet);
    forall line | line in LineSet
      ensures Count(prefix + [f], OverAt(line)) == Count(prefix, OverAt(line)) + (if IsOver(f, line) then 1 else 0)
      ensures Count(prefix + [f], UnderAt(line)) == Count(prefix, UnderAt(line)) + (if IsOver(f, line) then 0 else 1)
    {
      CountSnoc(prefix, f, OverAt(line));
      CountSnoc(prefix, f, UnderAt(line));
    }
  }

  /** The inner loop of the pass: for each line, one of over/under goes up by one. */
  method TallyLines(overs: map<int, nat>, unders: map<int, nat>, totalGoals: int)
    returns (overs': map<int, nat>, unders': map<int, nat>)
    requires overs.Keys == LineSet && unders.Keys == LineSet
    ensures overs'.Keys == LineSet && unders'.Keys == LineSet
    ensures forall line | line in LineSet ::
      && overs'[line] == overs[line] + (if 10 * totalGoals > line then 1 else 0)
      && unders'[line] == unders[line] + (if 10 * totalGoals > line then 0 else 1)
  {
    overs', unders' := overs, unders;
    var j := 0;
    while j < |Lines|
      invariant 0 <= j <= |Lines|
      invariant overs'.Keys == LineSet && unders'.Keys == LineSet
      invariant forall m | 0 <= m < |Lines| ::
        && overs'[Lines[m]] == overs[Lines[m]] + (if m < j && 10 * totalGoals > Lines[m] then 1 else 0)
        && unders'[Lines[m]] == unders[Lines[m]] + (if m < j && 10 * totalGoals <= Lines[m] then 1 else 0)
    {
      var k := Lines[j];
      if 10 * totalGoals > k {
        overs' := overs'[k := overs'[k] + 1];
      } else {
        unders' := unders'[k := unders'[k] + 1];
      }
      j := j + 1;
    }
    assert forall line | line in LineSet :: line == Lines[0] || line == Lines[1] || line == Lines[2];
  }

  /** No percent divides by zero, and an empty history gives zero everywhere. */
  lemma Summary2HEmpty(fixtures: seq<Fixture>)
    ensures Summary2H(fixtures).total == (if |fixtures| == 0 then 1 else |fixtures|) > 0
    ensures |fixtures| == 0 ==>
      var s := Summary2H(fixtures);
      && s.win == s.draw == s.lose == s.btts == s.cleanSheet == Stat(0, 0)
      && (forall line | line in LineSet :: s.over[line] == s.under[line] == Stat(0, 0))
  {
  }

  /** Every fixture is exactly one of win, draw or lose. */
  lemma Summary2HResultsPartition(fixtures: seq<Fixture>)
    ensures var s := Summary2H(fixtures); s.win.count + s.draw.count + s.lose.count == |fixtures|
  {
    CountPartition3(fixtures, IsWin, IsDraw, IsLose);
  }

  /** At every line a fixture is over or under, never both; the percents of the pair add
      up to 100, or 101 when both round up from a half. */
  lemma Summary2HOverUnderPartition(fixtures: seq<Fixture>, line: int)
    requires line in LineSet
    ensures var s := Summary2H(fixtures);
      && line in s.over && line in s.under
      && s.over[line].count + s.under[line].count == |fixtures|
      && (|fixtures| > 0 ==> 100 <= s.over[line].percent + s.under[line].percent <= 101)
  {
    CountComplement(fixtures, OverAt(line), UnderAt(line));
    if |fixtures| > 0 {
      RoundPctComplement(Count(fixtures, OverAt(line)), |fixtures|);
    }
  }

  /** Raising the line never raises the over count or its percent. */
  lemma Summary2HOverMonotone(fixtures: seq<Fixture>)
    ensures var s := Summary2H(fixtures);
      && s.over[5].count >= s.over[15].count >= s.over[25].count
      && s.over[5].percent >= s.over[15].percent >= s.over[25].percent
  {
    CountMonotone(fixtures, OverAt(15), OverAt(5));
    CountMonotone(fixtures, OverAt(25), OverAt(15));
    var total := Divisor(fixtures);
    RoundPctMonotone(Count(fixtures, OverAt(15)), Count(fixtures, OverAt(5)), total);
    RoundPctMonotone(Count(fixtures, OverAt(25)), Count(fixtures, OverAt(15)), total);
  }

  /** Both sides scoring in the second half means at least two goals: BTTS never
      exceeds over 1.5. */
  lemma Summary2HBttsBelowOver15(fixtures: seq<Fixture>)
    ensures Summary2H(fixtures).btts.count <= Summary2H(fixtures).over[15].count
  {
    CountMonotone(fixtures, IsBtts, OverAt(15));
  }

  /** A count no larger than the total, shown as its rounded share in 0..100. */
  predicate WellRounded(st: Stat, total: nat) {
    && st.count <= total
    && 2 * total * st.percent <= 200 * st.count + total < 2 * total * (st.percent + 1)
    && 0 <= st.percent <= 100
  }

  /** Every percent is the rounded share count * 100 / total and lies in 0..100. */
  lemma Summary2HPercents(fixtures: seq<Fixture>)
    ensures var s := Summary2H(fixtures);
      && WellRounded(s.win, s.total) && WellRounded(s.draw, s.total) && WellRounded(s.lose, s.total)
      && WellRounded(s.btts, s.total) && WellRounded(s.cleanSheet, s.total)
      && (forall line | line in LineSet :: WellRounded(s.over[line], s.total) && WellRounded(s.under[line], s.total))
  {
    var total := Divisor(fixtures);
    var s := Summary2H(fixtures);
    StatOfWellRounded(Count(fixtures, IsWin), total);
    StatOfWellRounded(Count(fixtures, IsDraw), total);
    StatOfWellRounded(Count(fixtures, IsLose), total);
    StatOfWellRounded(Count(fixtures, IsBtts), total);
    StatOfWellRounded(Count(fixtures, IsCleanSheet), total);
    forall line | line in LineSet
      ensures WellRounded(s.over[line], total) && WellRounded(s.under[line], total)
    {
      StatOfWellRounded(Count(fixtures, OverAt(line)), total);
      StatOfWellRounded(Count(fixtures, UnderAt(line)), total);
    }
  }

  lemma StatOfWellRounded(count: nat, total: nat)
    requires 0 < total && count <= total
    ensures WellRounded(StatOf(count, total), total)
  {
  }

  /** Scores that never go down from half time to full time give non-negative
      second-half goals; then a clean sheet is never a loss. Without that (the engine
      does not clamp), a clean sheet can be counted as a loss. */
  lemma CleanSheetNotLoss(f: Fixture)
    requires f.goalsForFull.GetOr(0) >= f.goalsForHt.GetOr(0)
    ensures IsCleanSheet(f) ==> !IsLose(f)
  {
  }

  lemma CleanSheetLossWithoutClamp()
    ensures var f := Fixture(Some(0), Some(1), Some(0), Some(0)); IsCleanSheet(f) && IsLose(f)
  {
  }
}
