/**
 * The match services over the two tables they change: which fixture is played next,
 * playing a week or a single match against the working set, and the score correction
 * that clears a group's standings and replays its played matches. Simulated scores are
 * oracle arguments; a transaction that throws leaves both tables as they were.
 */
module Matches {
  import opened Wrappers
  import opened Model
  import opened Collections
  import opened Standings
  import Prediction

  /** The working set: team id to that team's loaded records (`groupBy('team_id')`). */
  type Rows = map<TeamId, seq<Standing>>

  // ---------------------------------------------------------------------------
  // Fixture queries
  // ---------------------------------------------------------------------------

  /** A fixture of week w that is still to be played. */
  predicate Pending(f: Fixture, w: int)
  {
    f.week == w && !f.played
  }

  /** `getNextUnplayedWeek`: the smallest week of an unplayed fixture, none when all are played. */
  function NextUnplayedWeek(fs: seq<Fixture>): (w: Option<int>)
    ensures w.None? <==> forall i :: 0 <= i < |fs| ==> fs[i].played
    ensures w.Some? ==> exists i :: 0 <= i < |fs| && Pending(fs[i], w.value)
    ensures w.Some? ==> forall i :: 0 <= i < |fs| && !fs[i].played ==> w.value <= fs[i].week
  {
    if fs == [] then None
    else
      var init := fs[..|fs| - 1];
      var last := fs[|fs| - 1];
      var rest := NextUnplayedWeek(init);
      assert forall i :: 0 <= i < |init| ==> init[i] == fs[i];
      if last.played then rest
      else if rest.Some? && rest.value <= last.week then rest
      else
        assert Pending(fs[|fs| - 1], last.week);
        Some(last.week)
  }

  /** Positions of the fixtures pending in week w, in table order (`getUnplayedMatchesByWeek`). */
  function PendingPositions(fs: seq<Fixture>, w: int): (ps: seq<nat>)
    ensures forall k :: 0 <= k < |ps| ==> ps[k] < |fs| && Pending(fs[ps[k]], w)
    ensures forall i :: 0 <= i < |fs| && Pending(fs[i], w) ==> i in ps
    ensures forall k, l :: 0 <= k < l < |ps| ==> ps[k] < ps[l]
  {
    if fs == [] then []
    else
      var init := fs[..|fs| - 1];
      var ps := PendingPositions(init, w);
      assert forall i :: 0 <= i < |init| ==> init[i] == fs[i];
      if Pending(fs[|fs| - 1], w) then ps + [|fs| - 1] else ps
  }

  /** `countRemainingMatchesInWeek`: 0 exactly when no fixture of week w is pending. */
  function RemainingInWeek(fs: seq<Fixture>, w: int): (n: nat)
    ensures n == 0 <==> forall i :: 0 <= i < |fs| ==> !Pending(fs[i], w)
  {
    var ps := PendingPositions(fs, w);
    assert ps != [] ==> Pending(fs[ps[0]], w);
    |ps|
  }

  /** The fixtures pending in week w, in table order. */
  function PendingMatches(fs: seq<Fixture>, w: int): (ms: seq<Fixture>)
    ensures |ms| == |PendingPositions(fs, w)|
    ensures forall k :: 0 <= k < |ms| ==> ms[k] == fs[PendingPositions(fs, w)[k]] && Pending(ms[k], w)
  {
    var ps := PendingPositions(fs, w);
    seq(|ps|, k requires 0 <= k < |ps| => fs[ps[k]])
  }

  /**
   * `getNextUnplayedMatch(getNextUnplayedWeek())`: the first fixture, in table order,
   * pending in the smallest unplayed week; none when every fixture is played.
   */
  function NextMatch(fs: seq<Fixture>): (p: Option<nat>)
    ensures p.None? <==> NextUnplayedWeek(fs).None?
    ensures p.Some? ==> p.value < |fs| && Pending(fs[p.value], NextUnplayedWeek(fs).value)
    ensures p.Some? ==> forall i :: 0 <= i < p.value ==> !Pending(fs[i], NextUnplayedWeek(fs).value)
  {
    match NextUnplayedWeek(fs)
    case None => None
    case Some(w) =>
      FirstPending(fs, w);
      Some(PendingPositions(fs, w)[0])
  }

  /** When some fixture is pending in week w, the first pending position comes before every other pending fixture. */
  lemma FirstPending(fs: seq<Fixture>, w: int)
    requires exists i :: 0 <= i < |fs| && Pending(fs[i], w)
    ensures var ps := PendingPositions(fs, w);
      && ps != [] && ps[0] < |fs| && Pending(fs[ps[0]], w)
      && forall j :: 0 <= j < ps[0] ==> !Pending(fs[j], w)
  {
    var ps := PendingPositions(fs, w);
    var i :| 0 <= i < |fs| && Pending(fs[i], w);
    assert i in ps;
    assert forall k :: 0 <= k < |ps| ==> ps[0] <= ps[k];
  }

  /** Number of fixtures not yet played. */
  function UnplayedCount(fs: seq<Fixture>): nat
  {
    if fs == [] then 0 else UnplayedCount(fs[..|fs| - 1]) + (if fs[|fs| - 1].played then 0 else 1)
  }

  /** Playing at least one more fixture, and un-playing none, lowers the count of unplayed fixtures. */
  lemma {:induction false} UnplayedCountDecreases(before: seq<Fixture>, after: seq<Fixture>, p: nat)
    requires |after| == |before|
    requires forall i :: 0 <= i < |before| && before[i].played ==> after[i].played
    requires p < |before| && !before[p].played && after[p].played
    ensures UnplayedCount(after) < UnplayedCount(before)
  {
    var n := |before| - 1;
    if p == n {
      UnplayedCountMonotone(before[..n], after[..n]);
    } else {
      UnplayedCountDecreases(before[..n], after[..n], p);
    }
  }

  lemma {:induction false} UnplayedCountMonotone(before: seq<Fixture>, after: seq<Fixture>)
    requires |after| == |before|
    requires forall i :: 0 <= i < |before| && before[i].played ==> after[i].played
    ensures UnplayedCount(after) <= UnplayedCount(before)
  {
    if before != [] {
      var n := |before| - 1;
      UnplayedCountMonotone(before[..n], after[..n]);
    }
  }

  /** A fixture with the given score, marked played. */
  function Scored(f: Fixture, score: (int, int)): (r: Fixture)
    ensures r.played && r.homeGoals == score.0 && r.awayGoals == score.1
    ensures r.id == f.id && r.groupId == f.groupId && r.week == f.week && r.matchDay == f.matchDay
    ensures r.home == f.home && r.away == f.away
  {
    f.(homeGoals := score.0, awayGoals := score.1, played := true)
  }

  /** The k-th match of a list scored with the k-th simulated result. */
  function ScoredAll(ms: seq<Fixture>, score: nat -> (int, int)): (r: seq<Fixture>)
    ensures |r| == |ms|
    ensures forall k :: 0 <= k < |ms| ==> r[k] == Scored(ms[k], score(k))
  {
    seq(|ms|, k requires 0 <= k < |ms| => Scored(ms[k], score(k)))
  }

  /** The table after the first k listed positions were saved as the first k scored fixtures. */
  function MarkPlayed(fs: seq<Fixture>, ps: seq<nat>, scored: seq<Fixture>, k: nat): (r: seq<Fixture>)
    requires k <= |ps| <= |scored| && forall j :: 0 <= j < |ps| ==> ps[j] < |fs|
    ensures |r| == |fs|
  {
    if k == 0 then fs
    else MarkPlayed(fs, ps, scored, k - 1)[ps[k - 1] := scored[k - 1]]
  }

  /**
   * With distinct positions, the first k of them carry their scored fixture and every
   * other fixture is unchanged.
   */
  lemma MarkPlayedSpec(fs: seq<Fixture>, ps: seq<nat>, scored: seq<Fixture>, k: nat)
    requires k <= |ps| <= |scored| && forall j :: 0 <= j < |ps| ==> ps[j] < |fs|
    requires forall j, l :: 0 <= j < l < |ps| ==> ps[j] < ps[l]
    ensures forall j :: 0 <= j < k ==> MarkPlayed(fs, ps, scored, k)[ps[j]] == scored[j]
    ensures forall i :: 0 <= i < |fs| && i !in ps[..k] ==> MarkPlayed(fs, ps, scored, k)[i] == fs[i]
  {
    MarkPlayedSaved(fs, ps, scored, k);
    MarkPlayedKept(fs, ps, scored, k);
  }

  /** The first k listed positions carry their scored fixtures. */
  lemma {:induction false} MarkPlayedSaved(fs: seq<Fixture>, ps: seq<nat>, scored: seq<Fixture>, k: nat)
    requires k <= |ps| <= |scored| && forall j :: 0 <= j < |ps| ==> ps[j] < |fs|
    requires forall j, l :: 0 <= j < l < |ps| ==> ps[j] < ps[l]
    ensures forall j :: 0 <= j < k ==> MarkPlayed(fs, ps, scored, k)[ps[j]] == scored[j]
  {
    if k > 0 {
      MarkPlayedSaved(fs, ps, scored, k - 1);
      forall j | 0 <= j < k - 1 ensures ps[j] != ps[k - 1] {
        assert ps[j] < ps[k - 1];
      }
    }
  }

  /** A position not among the first k listed keeps its fixture. */
  lemma {:induction false} MarkPlayedKept(fs: seq<Fixture>, ps: seq<nat>, scored: seq<Fixture>, k: nat)
    requires k <= |ps| <= |scored| && forall j :: 0 <= j < |ps| ==> ps[j] < |fs|
    ensures forall i :: 0 <= i < |fs| && i !in ps[..k] ==> MarkPlayed(fs, ps, scored, k)[i] == fs[i]
  {
    if k > 0 {
      MarkPlayedKept(fs, ps, scored, k - 1);
      assert ps[..k] == ps[..k - 1] + [ps[k - 1]];
    }
  }

  /** `playNextWeek`'s fixture updates: every fixture pending in week w gets its simulated score. */
  function PlayWeekFixtures(fs: seq<Fixture>, w: int, score: nat -> (int, int)): (r: seq<Fixture>)
    ensures |r| == |fs|
  {
    var ps := PendingPositions(fs, w);
    MarkPlayed(fs, ps, ScoredAll(PendingMatches(fs, w), score), |ps|)
  }

  /**
   * Playing week w touches only the fixtures pending in w: the k-th of them, in table
   * order, is saved played with the k-th simulated score, every other fixture stays.
   */
  lemma PlayWeekTouchesOnlyPending(fs: seq<Fixture>, w: int, score: nat -> (int, int))
    ensures var r := PlayWeekFixtures(fs, w, score);
      forall i :: 0 <= i < |fs| && !Pending(fs[i], w) ==> r[i] == fs[i]
    ensures var r := PlayWeekFixtures(fs, w, score); var ms := PendingMatches(fs, w);
      forall k :: 0 <= k < |ms| ==> r[PendingPositions(fs, w)[k]] == Scored(ms[k], score(k))
  {
    var ps := PendingPositions(fs, w);
    MarkPlayedSpec(fs, ps, ScoredAll(PendingMatches(fs, w), score), |ps|);
    assert ps[..|ps|] == ps;
  }

  /** Every fixture pending in week w is played afterwards, and no played fixture changes. */
  lemma PlayWeekPlaysPending(fs: seq<Fixture>, w: int, score: nat -> (int, int))
    ensures var r := PlayWeekFixtures(fs, w, score);
      forall i :: 0 <= i < |fs| ==> if Pending(fs[i], w) then r[i].played else r[i] == fs[i]
  {
    var r := PlayWeekFixtures(fs, w, score);
    var ps := PendingPositions(fs, w);
    PlayWeekTouchesOnlyPending(fs, w, score);
    forall i | 0 <= i < |fs| && Pending(fs[i], w) ensures r[i].played {
      var k :| 0 <= k < |ps| && ps[k] == i;
      assert r[ps[k]] == Scored(PendingMatches(fs, w)[k], score(k));
    }
  }

  /**
   * After week w is played nothing is pending in it, no played fixture became unplayed,
   * and when w was the smallest unplayed week the next unplayed week is later (or none),
   * with fewer fixtures left to play.
   */
  lemma PlayWeekCompletesWeek(fs: seq<Fixture>, w: int, score: nat -> (int, int))
    requires NextUnplayedWeek(fs) == Some(w)
    ensures var r := PlayWeekFixtures(fs, w, score);
      && RemainingInWeek(r, w) == 0
      && (forall i :: 0 <= i < |fs| && fs[i].played ==> r[i].played)
      && (NextUnplayedWeek(r).None? || NextUnplayedWeek(r).value > w)
      && UnplayedCount(r) < UnplayedCount(fs)
  {
    PlayWeekPlaysPending(fs, w, score);
    WeekPlayed(fs, PlayWeekFixtures(fs, w, score), w);
  }

  /** The same facts for any table that plays every pending fixture of w and changes no other. */
  lemma WeekPlayed(fs: seq<Fixture>, r: seq<Fixture>, w: int)
    requires NextUnplayedWeek(fs) == Some(w) && |r| == |fs|
    requires forall i :: 0 <= i < |fs| ==> if Pending(fs[i], w) then r[i].played else r[i] == fs[i]
    ensures RemainingInWeek(r, w) == 0
    ensures forall i :: 0 <= i < |fs| && fs[i].played ==> r[i].played
    ensures NextUnplayedWeek(r).None? || NextUnplayedWeek(r).value > w
    ensures UnplayedCount(r) < UnplayedCount(fs)
  {
    assert forall i :: 0 <= i < |r| ==> !Pending(r[i], w);
    var next := NextUnplayedWeek(r);
    if next.Some? {
      var i :| 0 <= i < |r| && Pending(r[i], next.value);
      assert r[i] == fs[i];
    }
    var p :| 0 <= p < |fs| && Pending(fs[p], w);
    UnplayedCountDecreases(fs, r, p);
  }

  // ---------------------------------------------------------------------------
  // The working set and saving it
  // ---------------------------------------------------------------------------

  /** The records of the given teams, in table order (`getGroupTeamsByTeamIds`). */
  function RecordsOf(records: seq<Standing>, teams: set<TeamId>): (r: seq<Standing>)
    ensures forall x :: x in r <==> x in records && x.teamId in teams
  {
    if records == [] then []
    else
      var last := records[|records| - 1];
      assert records == records[..|records| - 1] + [last];
      RecordsOf(records[..|records| - 1], teams) + (if last.teamId in teams then [last] else [])
  }

  /** The home and away teams of a list of matches (`pluck` both sides, `merge`, `unique`). */
  function MatchTeams(ms: seq<Fixture>): set<TeamId>
  {
    (set k | 0 <= k < |ms| :: ms[k].home) + (set k | 0 <= k < |ms| :: ms[k].away)
  }

  /** One match recorded for both sides, home first; none when a side has no entry. */
  function PlayMatch(rows: Rows, m: Fixture): (r: Option<Rows>)
    ensures r.Some? <==> m.home in rows && m.away in rows
    ensures r.Some? ==> r.value.Keys == rows.Keys
  {
    match Step(rows, m.groupId, m.home, m.homeGoals, m.awayGoals)
    case None => None
    case Some(mid) => Step(mid, m.groupId, m.away, m.awayGoals, m.homeGoals)
  }

  /** The working set after recording the matches in order; none when some side has no entry. */
  function Replay(rows: Rows, ms: seq<Fixture>): (r: Option<Rows>)
    ensures r.Some? <==> forall k :: 0 <= k < |ms| ==> ms[k].home in rows && ms[k].away in rows
    ensures r.Some? ==> r.value.Keys == rows.Keys
  {
    if ms == [] then Some(rows)
    else
      var init := ms[..|ms| - 1];
      SidesSnoc(rows, ms);
      match Replay(rows, init)
      case None => None
      case Some(mid) =>
        assert mid.Keys == rows.Keys;
        PlayMatch(mid, ms[|ms| - 1])
  }

  /** Both sides of every match have an entry in the working set. */
  predicate HasSides(rows: Rows, ms: seq<Fixture>)
  {
    forall k :: 0 <= k < |ms| ==> ms[k].home in rows && ms[k].away in rows
  }

  /** Both sides of every match have entries exactly when they do for all but the last, and for the last. */
  lemma SidesSnoc(rows: Rows, ms: seq<Fixture>)
    requires ms != []
    ensures HasSides(rows, ms) <==>
      HasSides(rows, ms[..|ms| - 1]) && ms[|ms| - 1].home in rows && ms[|ms| - 1].away in rows
  {
    assert forall k :: 0 <= k < |ms| - 1 ==> ms[..|ms| - 1][k] == ms[k];
  }

  /** Recording one more match of a list after its first k were recorded. */
  lemma ReplayStep(rows: Rows, ms: seq<Fixture>, k: nat, mid: Rows)
    requires k < |ms| && Replay(rows, ms[..k]) == Some(mid)
    ensures Replay(rows, ms[..k + 1]) == PlayMatch(mid, ms[k])
  {
    var p := ms[..k + 1];
    assert p[..|p| - 1] == ms[..k] && p[|p| - 1] == ms[k];
  }

  /** A list whose first n matches cannot be recorded cannot be recorded whole. */
  lemma ReplayPrefixFails(rows: Rows, ms: seq<Fixture>, n: nat)
    requires n <= |ms| && Replay(rows, ms[..n]).None?
    ensures Replay(rows, ms).None?
  {
    var j :| 0 <= j < n && !(ms[..n][j].home in rows && ms[..n][j].away in rows);
    assert ms[..n][j] == ms[j];
  }

  /** The columns an upsert of the working set writes back. */
  datatype Columns =
    | AllColumns        // every statistic, the form and the guess
    | StatColumns       // every statistic and the form
    | CorrectionColumns // played, won, points, goals and form: not drawn, lost or guess

  /** A stored record after an upsert of working row w with the given columns. */
  function Upsert(x: Standing, w: Standing, cols: Columns): (r: Standing)
    ensures r.id == x.id && r.groupId == x.groupId && r.teamId == x.teamId
    ensures r.played == w.played && r.won == w.won && r.points == w.points && r.form == w.form
    ensures r.goalsFor == w.goalsFor && r.goalsAgainst == w.goalsAgainst && r.goalDifference == w.goalDifference
    ensures (r.drawn, r.lost) == if cols == CorrectionColumns then (x.drawn, x.lost) else (w.drawn, w.lost)
    ensures r.guess == if cols == AllColumns then w.guess else x.guess
  {
    var r := x.(played := w.played, won := w.won, points := w.points, goalsFor := w.goalsFor,
                goalsAgainst := w.goalsAgainst, goalDifference := w.goalDifference, form := w.form);
    match cols
    case CorrectionColumns => r
    case StatColumns => r.(drawn := w.drawn, lost := w.lost)
    case AllColumns => r.(drawn := w.drawn, lost := w.lost, guess := w.guess)
  }

  /** Writing every statistic of a consistent working row gives a consistent stored record. */
  lemma UpsertConsistent(x: Standing, w: Standing, cols: Columns)
    requires cols != CorrectionColumns && Consistent(w)
    ensures Consistent(Upsert(x, w, cols))
  {
  }

  /** The first position of record id `id`. */
  function FindId(rs: seq<Standing>, id: RecordId): (j: Option<nat>)
    ensures j.Some? ==> j.value < |rs| && rs[j.value].id == id
    ensures j.None? <==> forall i :: 0 <= i < |rs| ==> rs[i].id != id
  {
    if rs == [] then None
    else if rs[0].id == id then Some(0)
    else match FindId(rs[1..], id)
      case None => None
      case Some(j) => Some(j + 1)
  }

  /** A stored record after the upsert: its working row (matched on the record id), if one was loaded. */
  function Saved(x: Standing, rows: Rows, cols: Columns): Standing
  {
    if x.teamId in rows then
      match FindId(rows[x.teamId], x.id)
      case None => x
      case Some(j) => Upsert(x, rows[x.teamId][j], cols)
    else x
  }

  /** `saveStats` / `GroupTeam::upsert(..., ['id'], cols)` on the `group_teams` table. */
  function SaveRows(records: seq<Standing>, rows: Rows, cols: Columns): (r: seq<Standing>)
    ensures |r| == |records|
    ensures forall i :: 0 <= i < |records| ==> r[i] == Saved(records[i], rows, cols)
  {
    seq(|records|, i requires 0 <= i < |records| => Saved(records[i], rows, cols))
  }

  // ---------------------------------------------------------------------------
  // Playing a week
  // ---------------------------------------------------------------------------

  /** The two tables the match services change: `fixture` and `group_teams`. */
  datatype Tables = Tables(fixtures: seq<Fixture>, records: seq<Standing>)

  /** Why a match service throws. */
  datatype PlayError =
    | NoWeekLeft               // playNextWeek: no unplayed fixture
    | NoMatchLeft              // playNextMatch: no unplayed fixture
    | MissingRecord            // a side has no entry in the working set (undefined array key)
    | FixtureNotFound(id: FixtureId)
    | UndefinedMethod          // a call to a method PredictionService does not define
    | GroupIdNotInteger        // a UUID group id passed to a parameter declared `int`

  /** The working set `playNextWeek` loads: every record of every team playing in week w. */
  function WeekRows(t: Tables, w: int): Rows
  {
    GroupByTeam(RecordsOf(t.records, MatchTeams(PendingMatches(t.fixtures, w))))
  }

  /** The working set after week w's pending matches are recorded with their simulated scores. */
  function WeekStats(t: Tables, w: int, score: nat -> (int, int)): Option<Rows>
  {
    Replay(WeekRows(t, w), ScoredAll(PendingMatches(t.fixtures, w), score))
  }

  /**
   * The two `processStatsInMemory` calls for one played match, home side first; false
   * when a side has no entry (the undefined-key error), whatever was recorded before it.
   */
  method RecordMatch(groupTeams: WorkingSet, m: Fixture) returns (ok: bool)
    modifies groupTeams
    ensures ok <==> PlayMatch(old(groupTeams.rows), m).Some?
    ensures ok ==> PlayMatch(old(groupTeams.rows), m) == Some(groupTeams.rows)
  {
    if m.home !in groupTeams.rows {
      return false;
    }
    groupTeams.ProcessStatsInMemory(m.groupId, m.home, m.homeGoals, m.awayGoals);
    if m.away !in groupTeams.rows {
      return false;
    }
    groupTeams.ProcessStatsInMemory(m.groupId, m.away, m.awayGoals, m.homeGoals);
    return true;
  }

  /**
   * The loop of `playNextWeek` over the scored matches, in order: each is saved at its
   * position in the fixture table and recorded for both sides in the working set; a
   * side without an entry is an undefined-key error.
   */
  method RecordWeek(fs: seq<Fixture>, positions: seq<nat>, scored: seq<Fixture>, groupTeams: WorkingSet)
    returns (ok: bool, fixtures: seq<Fixture>)
    requires |positions| == |scored| && forall j :: 0 <= j < |positions| ==> positions[j] < |fs|
    modifies groupTeams
    ensures ok <==> Replay(old(groupTeams.rows), scored).Some?
    ensures ok ==> Replay(old(groupTeams.rows), scored) == Some(groupTeams.rows)
    ensures ok ==> fixtures == MarkPlayed(fs, positions, scored, |positions|)
  {
    ghost var rows0 := groupTeams.rows;
    fixtures := fs;
    var k := 0;
    while k < |scored|
      invariant 0 <= k <= |scored|
      invariant fixtures == MarkPlayed(fs, positions, scored, k)
      invariant Replay(rows0, scored[..k]) == Some(groupTeams.rows)
      modifies groupTeams
    {
      ReplayStep(rows0, scored, k, groupTeams.rows);
      fixtures := fixtures[positions[k] := scored[k]];
      ok := RecordMatch(groupTeams, scored[k]);
      if !ok {
        ReplayPrefixFails(rows0, scored, k + 1);
        return;
      }
      k := k + 1;
    }
    assert scored[..k] == scored;
    ok := true;
  }

  /**
   * `playNextWeek`'s work inside the transaction for week w: load the records of the
   * teams playing, then simulate, save and record each pending match in table order.
   */
  method PlayWeekMatches(t: Tables, w: int, score: nat -> (int, int))
    returns (stats: Option<Rows>, fixtures: seq<Fixture>)
    ensures stats == WeekStats(t, w, score)
    ensures stats.Some? ==> fixtures == PlayWeekFixtures(t.fixtures, w, score)
  {
    var positions := PendingPositions(t.fixtures, w);
    var matches := PendingMatches(t.fixtures, w);
    var scored := ScoredAll(matches, score);
    var groupTeams := new WorkingSet(RecordsOf(t.records, MatchTeams(matches)));
    var ok;
    ok, fixtures := RecordWeek(t.fixtures, positions, scored, groupTeams);
    stats := if ok then Some(groupTeams.rows) else None;
  }

  /** The table after `calculatePredictions` ran for each listed group in turn. */
  function PredictAll(records: seq<Standing>, groups: seq<GroupId>, strength: TeamId -> int): (r: seq<Standing>)
    ensures |r| == |records|
  {
    if groups == [] then records
    else
      var prev := PredictAll(records, groups[..|groups| - 1], strength);
      var g := groups[|groups| - 1];
      Prediction.WithGuesses(prev, g, Prediction.Guesses(WithKey(prev, GroupOf, g), strength))
  }

  /** Predicting a single group is one write of that group's guesses. */
  lemma PredictOne(records: seq<Standing>, g: GroupId, strength: TeamId -> int)
    ensures PredictAll(records, [g], strength) == Prediction.WithGuesses(records, g, Prediction.Guesses(WithKey(records, GroupOf, g), strength))
  {
    assert [g][..0] == [];
  }

  /** Recomputing predictions changes only guesses. */
  lemma {:induction false} PredictAllChangesOnlyGuesses(records: seq<Standing>, groups: seq<GroupId>, strength: TeamId -> int)
    ensures var r := PredictAll(records, groups, strength);
      forall i :: 0 <= i < |records| ==> r[i] == records[i].(guess := r[i].guess)
  {
    if groups != [] {
      PredictAllChangesOnlyGuesses(records, groups[..|groups| - 1], strength);
    }
  }

  /** The loop calling `calculatePredictions` for every listed group, in order. */
  method PredictGroups(records: seq<Standing>, groups: seq<GroupId>, strength: TeamId -> int) returns (updated: seq<Standing>)
    ensures updated == PredictAll(records, groups, strength)
  {
    updated := records;
    for k := 0 to |groups|
      invariant updated == PredictAll(records, groups[..k], strength)
    {
      assert groups[..k + 1][..k] == groups[..k];
      updated := Prediction.CalculatePredictions(updated, groups[k], strength);
    }
    assert groups[..|groups|] == groups;
  }

  /**
   * How a service finishes a week: the split service saves the working set with every
   * column; the monolith saves the statistic columns, then recomputes the guesses of
   * every listed group.
   */
  datatype Finish = SaveAll | SaveAndPredict(groups: seq<GroupId>, strength: TeamId -> int)

  /** The tables after week w was played: its fixtures scored, the working set saved. */
  function WeekTables(t: Tables, w: int, score: nat -> (int, int), stats: Rows, finish: Finish): (after: Tables)
    ensures after.fixtures == PlayWeekFixtures(t.fixtures, w, score)
    ensures |after.records| == |t.records|
  {
    match finish
    case SaveAll => Tables(PlayWeekFixtures(t.fixtures, w, score), SaveRows(t.records, stats, AllColumns))
    case SaveAndPredict(groups, strength) =>
      Tables(PlayWeekFixtures(t.fixtures, w, score), PredictAll(SaveRows(t.records, stats, StatColumns), groups, strength))
  }

  /**
   * `playNextWeek`: the week played and the new tables, or why it throws: no unplayed
   * fixture at all, or a side of a match without a record.
   */
  function NextWeekPlay(t: Tables, score: nat -> (int, int), finish: Finish): (r: Result<(int, Tables), PlayError>)
    ensures r == Err(NoWeekLeft) <==> NextUnplayedWeek(t.fixtures).None?
    ensures r.Err? ==> r.error in {NoWeekLeft, MissingRecord}
    ensures r.Ok? ==> NextUnplayedWeek(t.fixtures) == Some(r.value.0)
    ensures r.Ok? ==> r.value.1.fixtures == PlayWeekFixtures(t.fixtures, r.value.0, score)
    ensures r.Ok? ==> |r.value.1.records| == |t.records|
  {
    match NextUnplayedWeek(t.fixtures)
    case None => Err(NoWeekLeft)
    case Some(w) =>
      match WeekStats(t, w, score)
      case None => Err(MissingRecord)
      case Some(stats) => Ok((w, WeekTables(t, w, score, stats, finish)))
  }

  /**
   * `MatchService::playNextWeek`: plays every pending fixture of the smallest unplayed
   * week and saves the working set with every column; an error rolls both tables back.
   */
  method PlayNextWeek(t: Tables, score: nat -> (int, int)) returns (r: Result<int, PlayError>, after: Tables)
    ensures var n := NextWeekPlay(t, score, SaveAll);
      n.Err? ==> r == Err(n.error) && after == t
    ensures var n := NextWeekPlay(t, score, SaveAll);
      n.Ok? ==> r == Ok(n.value.0) && after == n.value.1
  {
    var nextWeek := NextUnplayedWeek(t.fixtures);
    if nextWeek.None? {
      return Err(NoWeekLeft), t;
    }
    var stats, fixtures := PlayWeekMatches(t, nextWeek.value, score);
    if stats.None? {
      return Err(MissingRecord), t;
    }
    r := Ok(nextWeek.value);
    after := Tables(fixtures, SaveRows(t.records, stats.value, AllColumns));
  }

  /**
   * The monolith's `playNextWeek`: the same week loop, an upsert of the statistic
   * columns (not the guess), then the predictions of every group recomputed.
   */
  method LeaguePlayNextWeek(t: Tables, score: nat -> (int, int), groups: seq<GroupId>, strength: TeamId -> int)
    returns (r: Result<int, PlayError>, after: Tables)
    ensures var n := NextWeekPlay(t, score, SaveAndPredict(groups, strength));
      n.Err? ==> r == Err(n.error) && after == t
    ensures var n := NextWeekPlay(t, score, SaveAndPredict(groups, strength));
      n.Ok? ==> r == Ok(n.value.0) && after == n.value.1
  {
    var nextWeek := NextUnplayedWeek(t.fixtures);
    if nextWeek.None? {
      return Err(NoWeekLeft), t;
    }
    var stats, fixtures := PlayWeekMatches(t, nextWeek.value, score);
    if stats.None? {
      return Err(MissingRecord), t;
    }
    var saved := SaveRows(t.records, stats.value, StatColumns);
    var predicted := PredictGroups(saved, groups, strength);
    r := Ok(nextWeek.value);
    after := Tables(fixtures, predicted);
  }

  // ---------------------------------------------------------------------------
  // Playing one match
  // ---------------------------------------------------------------------------

  /** Some record of the table belongs to team u. */
  predicate HasRecord(records: seq<Standing>, u: TeamId)
  {
    exists i :: 0 <= i < |records| && records[i].teamId == u
  }

  /** The working set `playNextMatch` loads: every record of the two teams of m. */
  function MatchRows(records: seq<Standing>, m: Fixture): Rows
  {
    GroupByTeam(RecordsOf(records, {m.home, m.away}))
  }

  /** The working set of a match has an entry for each of its two teams that has a record, and no other. */
  lemma MatchRowsKeys(records: seq<Standing>, m: Fixture)
    ensures forall u :: u in MatchRows(records, m) <==> (u == m.home || u == m.away) && HasRecord(records, u)
  {
    forall u ensures u in MatchRows(records, m) <==> (u == m.home || u == m.away) && HasRecord(records, u) {
      MatchRowsKey(records, {m.home, m.away}, u);
    }
  }

  lemma MatchRowsKey(records: seq<Standing>, teams: set<TeamId>, u: TeamId)
    ensures u in GroupByTeam(RecordsOf(records, teams)) <==> u in teams && HasRecord(records, u)
  {
    var loaded := RecordsOf(records, teams);
    if u in GroupByTeam(loaded) {
      var i :| 0 <= i < |loaded| && loaded[i].teamId == u;
      assert loaded[i] in loaded;
      var j :| 0 <= j < |records| && records[j] == loaded[i];
    }
    if u in teams && HasRecord(records, u) {
      var j :| 0 <= j < |records| && records[j].teamId == u;
      assert records[j] in loaded;
      var i :| 0 <= i < |loaded| && loaded[i] == records[j];
    }
  }

  /** What `playNextMatch` reports: the match, its week, the fixtures left in that week, and whether none is. */
  datatype MatchReport = MatchReport(fixture: Fixture, week: int, remaining: nat, isLastMatch: bool)

  /**
   * The fixture at position p saved with the given score and recorded for both sides in
   * the working set of its two teams, which is then saved with every column, and the
   * count of fixtures still pending in week w: the new tables and the report. A side
   * without a record is the undefined-key error.
   */
  function MatchPlay(t: Tables, p: nat, w: int, score: (int, int)): (r: Result<(Tables, MatchReport), PlayError>)
    requires p < |t.fixtures|
    ensures r.Err? <==> !(HasRecord(t.records, t.fixtures[p].home) && HasRecord(t.records, t.fixtures[p].away))
    ensures r.Err? ==> r.error == MissingRecord
    ensures r.Ok? ==> r.value.0.fixtures == t.fixtures[p := Scored(t.fixtures[p], score)]
    ensures r.Ok? ==> |r.value.0.records| == |t.records|
    ensures r.Ok? ==> r.value.1.fixture == Scored(t.fixtures[p], score) && r.value.1.week == w
    ensures r.Ok? ==> (r.value.1.isLastMatch <==> r.value.1.remaining == 0)
    ensures r.Ok? ==> (r.value.1.isLastMatch <==> forall i :: 0 <= i < |t.fixtures| ==> !Pending(r.value.0.fixtures[i], w))
  {
    var m := Scored(t.fixtures[p], score);
    MatchRowsKeys(t.records, m);
    match PlayMatch(MatchRows(t.records, m), m)
    case None => Err(MissingRecord)
    case Some(rows) =>
      var fixtures := t.fixtures[p := m];
      var remaining := RemainingInWeek(fixtures, w);
      Ok((Tables(fixtures, SaveRows(t.records, rows, AllColumns)), MatchReport(m, w, remaining, remaining == 0)))
  }

  /** Playing match p once its working set has been replayed to rows, written out. */
  lemma MatchPlayOk(t: Tables, p: nat, w: int, score: (int, int), rows: Rows)
    requires p < |t.fixtures|
    requires PlayMatch(MatchRows(t.records, Scored(t.fixtures[p], score)), Scored(t.fixtures[p], score)) == Some(rows)
    ensures var m := Scored(t.fixtures[p], score);
      var remaining := RemainingInWeek(t.fixtures[p := m], w);
      MatchPlay(t, p, w, score) == Ok((Tables(t.fixtures[p := m], SaveRows(t.records, rows, AllColumns)), MatchReport(m, w, remaining, remaining == 0)))
  {
  }

  /** Playing match p fails exactly when its working set cannot be replayed. */
  lemma MatchPlayMissing(t: Tables, p: nat, w: int, score: (int, int))
    requires p < |t.fixtures|
    requires PlayMatch(MatchRows(t.records, Scored(t.fixtures[p], score)), Scored(t.fixtures[p], score)).None?
    ensures MatchPlay(t, p, w, score) == Err(MissingRecord)
  {
  }

  /**
   * Playing one match changes only that fixture, only the records of its two teams, and
   * only while both teams have a record.
   */
  lemma MatchPlayTouchesOnlyItsTeams(t: Tables, p: nat, w: int, score: (int, int))
    requires p < |t.fixtures|
    ensures var r := MatchPlay(t, p, w, score);
      r.Ok? ==> forall i :: 0 <= i < |t.records| && t.records[i].teamId !in {t.fixtures[p].home, t.fixtures[p].away} ==>
        r.value.0.records[i] == t.records[i]
    ensures var r := MatchPlay(t, p, w, score);
      r.Ok? ==> forall i :: 0 <= i < |t.fixtures| && i != p ==> r.value.0.fixtures[i] == t.fixtures[i]
  {
    var m := Scored(t.fixtures[p], score);
    MatchRowsKeys(t.records, m);
  }

  /** Playing a fixture pending in week w leaves one fewer pending there. */
  lemma {:induction false} RemainingAfterPlaying(fs: seq<Fixture>, p: nat, f: Fixture, w: int)
    requires p < |fs| && Pending(fs[p], w) && !Pending(f, w)
    ensures RemainingInWeek(fs[p := f], w) == RemainingInWeek(fs, w) - 1
  {
    var n := |fs| - 1;
    assert fs[p := f][..n] == if p == n then fs[..n] else fs[..n][p := f];
    if p < n {
      RemainingAfterPlaying(fs[..n], p, f, w);
    }
  }

  /**
   * `is_last_match` of a pending fixture of week w holds exactly when it was the only
   * fixture still pending in w, and `remaining_matches` is one less than before.
   */
  lemma IsLastMatchIff(t: Tables, p: nat, w: int, score: (int, int))
    requires p < |t.fixtures| && Pending(t.fixtures[p], w)
    ensures var r := MatchPlay(t, p, w, score);
      r.Ok? ==> r.value.1.remaining == RemainingInWeek(t.fixtures, w) - 1
    ensures var r := MatchPlay(t, p, w, score);
      r.Ok? ==> (r.value.1.isLastMatch <==> RemainingInWeek(t.fixtures, w) == 1)
  {
    RemainingAfterPlaying(t.fixtures, p, Scored(t.fixtures[p], score), w);
  }

  /**
   * `MatchService::playNextMatch` as written: the first pending fixture of the smallest
   * unplayed week is simulated, saved and recorded, and the count left in its week gives
   * `is_last_match`. For the last match of a week it then calls
   * `calculatePredictionsInMemory`, which PredictionService does not define: the call
   * throws and the transaction rolls both tables back.
   */
  method PlayNextMatch(t: Tables, score: (int, int)) returns (r: Result<MatchReport, PlayError>, after: Tables)
    ensures NextUnplayedWeek(t.fixtures).None? ==> r == Err(NoMatchLeft) && after == t
    ensures NextUnplayedWeek(t.fixtures).Some? ==>
      var played := MatchPlay(t, NextMatch(t.fixtures).value, NextUnplayedWeek(t.fixtures).value, score);
      && (played.Err? ==> r == Err(MissingRecord) && after == t)
      && (played.Ok? && played.value.1.isLastMatch ==> r == Err(UndefinedMethod) && after == t)
      && (played.Ok? && !played.value.1.isLastMatch ==> r == Ok(played.value.1) && after == played.value.0)
  {
    var currentWeek := NextUnplayedWeek(t.fixtures);
    if currentWeek.None? {
      return Err(NoMatchLeft), t;
    }
    var p := NextMatch(t.fixtures).value;
    var m := Scored(t.fixtures[p], score);
    var groupTeams := new WorkingSet(RecordsOf(t.records, {m.home, m.away}));
    var fixtures := t.fixtures[p := m];
    var ok := RecordMatch(groupTeams, m);
    if !ok {
      MatchPlayMissing(t, p, currentWeek.value, score);
      return Err(MissingRecord), t;
    }
    MatchPlayOk(t, p, currentWeek.value, score, groupTeams.rows);
    var records := SaveRows(t.records, groupTeams.rows, AllColumns);
    var remaining := RemainingInWeek(fixtures, currentWeek.value);
    var isLastMatch := remaining == 0;
    if isLastMatch {
      return Err(UndefinedMethod), t;
    }
    r := Ok(MatchReport(m, currentWeek.value, remaining, isLastMatch));
    after := Tables(fixtures, records);
  }

  /**
   * Whenever the next match is the only fixture left in its week, `is_last_match` holds
   * once it is played, so `playNextMatch` as written fails and leaves the tables as they
   * were: the last match of a week is never saved by it.
   */
  lemma LastMatchOfWeekIsLast(t: Tables, score: (int, int))
    requires NextUnplayedWeek(t.fixtures).Some?
    requires RemainingInWeek(t.fixtures, NextUnplayedWeek(t.fixtures).value) == 1
    ensures var played := MatchPlay(t, NextMatch(t.fixtures).value, NextUnplayedWeek(t.fixtures).value, score);
      played.Ok? ==> played.value.1.isLastMatch
  {
    IsLastMatchIff(t, NextMatch(t.fixtures).value, NextUnplayedWeek(t.fixtures).value, score);
  }

  /** A one-fixture week whose two teams have records: its only match hits the undefined call. */
  lemma LastMatchExample()
    ensures var t := Tables([Fixture(1, 1, 1, Tuesday, 10, 20, 0, 0, false)],
      [Standing(1, 1, 10, 0, 0, 0, 0, 0, 0, 0, 0, 0, ""), Standing(2, 1, 20, 0, 0, 0, 0, 0, 0, 0, 0, 0, "")]);
      && NextUnplayedWeek(t.fixtures) == Some(1) && NextMatch(t.fixtures) == Some(0)
      && MatchPlay(t, 0, 1, (2, 1)).Ok? && MatchPlay(t, 0, 1, (2, 1)).value.1.isLastMatch
  {
    var f := Fixture(1, 1, 1, Tuesday, 10, 20, 0, 0, false);
    var t := Tables([f], [Standing(1, 1, 10, 0, 0, 0, 0, 0, 0, 0, 0, 0, ""), Standing(2, 1, 20, 0, 0, 0, 0, 0, 0, 0, 0, 0, "")]);
    assert [f][..0] == [];
    assert NextUnplayedWeek(t.fixtures) == Some(1);
    assert PendingPositions(t.fixtures, 1) == [0];
    assert HasRecord(t.records, 10) && HasRecord(t.records, 20) by {
      assert t.records[0].teamId == 10 && t.records[1].teamId == 20;
    }
    LastMatchOfWeekIsLast(t, (2, 1));
  }

  /**
   * `playNextMatch` with its evident intent: for the last match of a week the guesses
   * of the match's group are recomputed by `calculatePredictions` and saved, instead of
   * the undefined call.
   */
  method CorrectedPlayNextMatch(t: Tables, score: (int, int), strength: TeamId -> int)
    returns (r: Result<MatchReport, PlayError>, after: Tables)
    ensures NextUnplayedWeek(t.fixtures).None? ==> r == Err(NoMatchLeft) && after == t
    ensures NextUnplayedWeek(t.fixtures).Some? ==>
      var played := MatchPlay(t, NextMatch(t.fixtures).value, NextUnplayedWeek(t.fixtures).value, score);
      && (played.Err? ==> r == Err(MissingRecord) && after == t)
      && (played.Ok? ==> r == Ok(played.value.1) && after.fixtures == played.value.0.fixtures)
      && (played.Ok? && !played.value.1.isLastMatch ==> after.records == played.value.0.records)
      && (played.Ok? && played.value.1.isLastMatch ==>
            after.records == PredictAll(played.value.0.records, [played.value.1.fixture.groupId], strength))
  {
    var currentWeek := NextUnplayedWeek(t.fixtures);
    if currentWeek.None? {
      return Err(NoMatchLeft), t;
    }
    var p := NextMatch(t.fixtures).value;
    var m := Scored(t.fixtures[p], score);
    var groupTeams := new WorkingSet(RecordsOf(t.records, {m.home, m.away}));
    var fixtures := t.fixtures[p := m];
    var ok := RecordMatch(groupTeams, m);
    if !ok {
      MatchPlayMissing(t, p, currentWeek.value, score);
      return Err(MissingRecord), t;
    }
    MatchPlayOk(t, p, currentWeek.value, score, groupTeams.rows);
    var records := SaveRows(t.records, groupTeams.rows, AllColumns);
    var remaining := RemainingInWeek(fixtures, currentWeek.value);
    var isLastMatch := remaining == 0;
    if isLastMatch {
      PredictOne(records, m.groupId, strength);
      records := Prediction.CalculatePredictions(records, m.groupId, strength);
    }
    r := Ok(MatchReport(m, currentWeek.value, remaining, isLastMatch));
    after := Tables(fixtures, records);
  }

  /**
   * With the corrected service every match is saved: the week of the next match loses one
   * pending fixture, and after its last one the week is complete.
   */
  lemma CorrectedPlaysLastMatch(t: Tables, score: (int, int))
    requires NextUnplayedWeek(t.fixtures).Some?
    ensures var w := NextUnplayedWeek(t.fixtures).value;
      var played := MatchPlay(t, NextMatch(t.fixtures).value, w, score);
      played.Ok? ==> RemainingInWeek(played.value.0.fixtures, w) == RemainingInWeek(t.fixtures, w) - 1
  {
    var w := NextUnplayedWeek(t.fixtures).value;
    var p := NextMatch(t.fixtures).value;
    RemainingAfterPlaying(t.fixtures, p, Scored(t.fixtures[p], score), w);
  }

  // ---------------------------------------------------------------------------
  // Playing every week
  // ---------------------------------------------------------------------------

  /** `existsUnplayed`: some fixture is not played yet. */
  function ExistsUnplayed(fs: seq<Fixture>): (b: bool)
    ensures b <==> NextUnplayedWeek(fs).Some?
  {
    exists i :: 0 <= i < |fs| && !fs[i].played
  }

  /** The weeks ws played before an outcome, put in front of its list of weeks. */
  function After(ws: seq<int>, rest: (Result<seq<int>, PlayError>, Tables)): (Result<seq<int>, PlayError>, Tables)
  {
    (match rest.0 case Ok(more) => Ok(ws + more) case Err(e) => Err(e), rest.1)
  }

  /**
   * Calling `playNextWeek` while a fixture is unplayed, the n-th call with simulated
   * scores `score(n)`: the weeks played in order and the tables after the last call, or
   * the first error with the tables as the weeks before it left them.
   */
  function PlayWeeks(t: Tables, score: nat -> nat -> (int, int), finish: Finish, n: nat)
    : (Result<seq<int>, PlayError>, Tables)
    decreases UnplayedCount(t.fixtures)
  {
    match NextWeekPlay(t, score(n), finish)
    case Err(e) => if e == NoWeekLeft then (Ok([]), t) else (Err(e), t)
    case Ok(played) =>
      PlayWeekCompletesWeek(t.fixtures, played.0, score(n));
      After([played.0], PlayWeeks(played.1, score, finish, n + 1))
  }

  lemma AfterEmpty(rest: (Result<seq<int>, PlayError>, Tables))
    ensures After([], rest) == rest
  {
    if rest.0.Ok? {
      assert [] + rest.0.value == rest.0.value;
    }
  }

  lemma AfterAfter(ws: seq<int>, vs: seq<int>, rest: (Result<seq<int>, PlayError>, Tables))
    ensures After(ws, After(vs, rest)) == After(ws + vs, rest)
  {
    if rest.0.Ok? {
      assert ws + (vs + rest.0.value) == ws + vs + rest.0.value;
    }
  }

  /** One week played, then the rest: the outcome is that week followed by the outcome of the rest. */
  lemma PlayWeeksStep(t: Tables, score: nat -> nat -> (int, int), finish: Finish, n: nat, played: (int, Tables))
    requires NextWeekPlay(t, score(n), finish) == Ok(played)
    ensures PlayWeeks(t, score, finish, n) == After([played.0], PlayWeeks(played.1, score, finish, n + 1))
  {
  }

  /** A week that cannot be played ends the loop with its error and the tables unchanged. */
  lemma PlayWeeksStops(t: Tables, score: nat -> nat -> (int, int), finish: Finish, n: nat)
    requires NextWeekPlay(t, score(n), finish).Err?
    ensures var e := NextWeekPlay(t, score(n), finish).error;
      PlayWeeks(t, score, finish, n) == (if e == NoWeekLeft then Ok([]) else Err(e), t)
  {
  }

  /** Playing every week keeps the sizes of both tables. */
  lemma {:induction false} PlayWeeksSizes(t: Tables, score: nat -> nat -> (int, int), finish: Finish, n: nat)
    ensures |PlayWeeks(t, score, finish, n).1.fixtures| == |t.fixtures|
    ensures |PlayWeeks(t, score, finish, n).1.records| == |t.records|
    decreases UnplayedCount(t.fixtures)
  {
    match NextWeekPlay(t, score(n), finish)
    case Err(e) =>
    case Ok(played) =>
      PlayWeekCompletesWeek(t.fixtures, played.0, score(n));
      PlayWeeksSizes(played.1, score, finish, n + 1);
  }

  /** When playing every week succeeds, no fixture is left unplayed. */
  lemma {:induction false} PlayWeeksPlaysEverything(t: Tables, score: nat -> nat -> (int, int), finish: Finish, n: nat)
    ensures PlayWeeks(t, score, finish, n).0.Ok? ==> NextUnplayedWeek(PlayWeeks(t, score, finish, n).1.fixtures).None?
    decreases UnplayedCount(t.fixtures)
  {
    match NextWeekPlay(t, score(n), finish)
    case Err(e) =>
    case Ok(played) =>
      PlayWeekCompletesWeek(t.fixtures, played.0, score(n));
      PlayWeeksPlaysEverything(played.1, score, finish, n + 1);
  }

  /**
   * A successful list of played weeks is strictly increasing, starts with the smallest
   * unplayed week of fs, and is empty exactly when fs has no unplayed fixture.
   */
  predicate WeeksInOrder(fs: seq<Fixture>, r: Result<seq<int>, PlayError>)
  {
    r.Ok? ==>
      && (forall i, j :: 0 <= i < j < |r.value| ==> r.value[i] < r.value[j])
      && (r.value == [] <==> NextUnplayedWeek(fs).None?)
      && (r.value != [] ==> NextUnplayedWeek(fs) == Some(r.value[0]))
  }

  /** A week followed by weeks in order, all later than it, is in order. */
  lemma WeeksInOrderCons(fs: seq<Fixture>, w: int, later: seq<Fixture>, rest: Result<seq<int>, PlayError>)
    requires NextUnplayedWeek(fs) == Some(w) && WeeksInOrder(later, rest)
    requires NextUnplayedWeek(later).None? || NextUnplayedWeek(later).value > w
    ensures WeeksInOrder(fs, match rest case Ok(more) => Ok([w] + more) case Err(e) => Err(e))
  {
    if rest.Ok? {
      var ws := [w] + rest.value;
      assert forall j :: 0 < j < |ws| ==> ws[j] == rest.value[j - 1];
    }
  }

  /** Playing every week plays the weeks in increasing order, from the smallest unplayed one. */
  lemma {:induction false} PlayWeeksInOrder(t: Tables, score: nat -> nat -> (int, int), finish: Finish, n: nat)
    ensures WeeksInOrder(t.fixtures, PlayWeeks(t, score, finish, n).0)
    decreases UnplayedCount(t.fixtures)
  {
    match NextWeekPlay(t, score(n), finish)
    case Err(e) =>
    case Ok(played) =>
      PlayWeekCompletesWeek(t.fixtures, played.0, score(n));
      PlayWeeksInOrder(played.1, score, finish, n + 1);
      WeeksInOrderCons(t.fixtures, played.0, played.1.fixtures, PlayWeeks(played.1, score, finish, n + 1).0);
  }

  /**
   * `MatchService::playAllWeeks` as written, after its loop: with any record in the
   * table it calls `calculatePredictionsInMemory`, which PredictionService does not
   * define, so it throws after every week was already saved.
   */
  function PlayAllOutcome(t: Tables, score: nat -> nat -> (int, int)): (Result<seq<int>, PlayError>, Tables)
  {
    var (r, after) := PlayWeeks(t, score, SaveAll, 0);
    if r.Ok? && |after.records| > 0 then (Err(UndefinedMethod), after) else (r, after)
  }

  /** With any record in the table, `playAllWeeks` as written never returns its weeks. */
  lemma PlayAllWeeksAlwaysFails(t: Tables, score: nat -> nat -> (int, int))
    requires |t.records| > 0
    ensures PlayAllOutcome(t, score).0.Err?
    ensures PlayWeeks(t, score, SaveAll, 0).0.Ok? ==> PlayAllOutcome(t, score).0 == Err(UndefinedMethod)
  {
    PlayWeeksSizes(t, score, SaveAll, 0);
  }

  /**
   * The loop of `playAllWeeks`: `playNextWeek` while a fixture is unplayed, the n-th
   * call with scores `score(n)`; an error ends it with the weeks so far committed.
   */
  method PlayWeeksLoop(t: Tables, score: nat -> nat -> (int, int), finish: Finish)
    returns (r: Result<seq<int>, PlayError>, after: Tables)
    ensures (r, after) == PlayWeeks(t, score, finish, 0)
  {
    var current := t;
    var weeks: seq<int> := [];
    var n: nat := 0;
    AfterEmpty(PlayWeeks(t, score, finish, 0));
    while ExistsUnplayed(current.fixtures)
      invariant PlayWeeks(t, score, finish, 0) == After(weeks, PlayWeeks(current, score, finish, n))
      decreases UnplayedCount(current.fixtures)
    {
      var res, next;
      match finish {
        case SaveAll =>
          res, next := PlayNextWeek(current, score(n));
        case SaveAndPredict(groups, strength) =>
          res, next := LeaguePlayNextWeek(current, score(n), groups, strength);
      }
      ghost var step := NextWeekPlay(current, score(n), finish);
      if res.Err? {
        PlayWeeksStops(current, score, finish, n);
        return Err(res.error), current;
      }
      PlayWeekCompletesWeek(current.fixtures, res.value, score(n));
      PlayWeeksStep(current, score, finish, n, step.value);
      AfterAfter(weeks, [res.value], PlayWeeks(next, score, finish, n + 1));
      weeks := weeks + [res.value];
      current := next;
      n := n + 1;
    }
    PlayWeeksStops(current, score, finish, n);
    AfterAfter(weeks, [], (Ok([]), current));
    assert weeks + [] == weeks;
    return Ok(weeks), current;
  }

  /** `MatchService::playAllWeeks` as written: the loop, then the undefined call whenever a record exists. */
  method PlayAllWeeks(t: Tables, score: nat -> nat -> (int, int)) returns (r: Result<seq<int>, PlayError>, after: Tables)
    ensures (r, after) == PlayAllOutcome(t, score)
  {
    r, after := PlayWeeksLoop(t, score, SaveAll);
    if r.Ok? && |after.records| > 0 {
      r := Err(UndefinedMethod);
    }
  }

  /**
   * `playAllWeeks` with its evident intent: after the loop the guesses of every group
   * with a record, in the order the groups first appear, are recomputed by
   * `calculatePredictions` and saved.
   */
  method CorrectedPlayAllWeeks(t: Tables, score: nat -> nat -> (int, int), strength: TeamId -> int)
    returns (r: Result<seq<int>, PlayError>, after: Tables)
    ensures var (played, final) := PlayWeeks(t, score, SaveAll, 0);
      r == played && after.fixtures == final.fixtures
    ensures var (played, final) := PlayWeeks(t, score, SaveAll, 0);
      after.records == if played.Ok? then PredictAll(final.records, DistinctKeys(final.records, GroupOf), strength) else final.records
  {
    r, after := PlayWeeksLoop(t, score, SaveAll);
    if r.Ok? {
      var records := PredictGroups(after.records, DistinctKeys(after.records, GroupOf), strength);
      after := Tables(after.fixtures, records);
    }
  }

  /** The monolith's `playAllWeeks`: only the loop over its own `playNextWeek`. */
  method LeaguePlayAllWeeks(t: Tables, score: nat -> nat -> (int, int), groups: seq<GroupId>, strength: TeamId -> int)
    returns (r: Result<seq<int>, PlayError>, after: Tables)
    ensures (r, after) == PlayWeeks(t, score, SaveAndPredict(groups, strength), 0)
  {
    r, after := PlayWeeksLoop(t, score, SaveAndPredict(groups, strength));
  }
}
