/**
 * The standings updater: one side's `group_teams` record after one match, the
 * five-result form window, and the in-memory working set (team id to that team's
 * records) that the match services mutate before saving.
 */
module Standings {
  import opened Wrappers
  import opened Model
  import opened Collections

  /** The form keeps this many trailing results. */
  const FormWindow: nat := 5

  /** The letter a result adds to the form. */
  function ResultLetter(gf: int, ga: int): (c: char)
    ensures c == 'W' <==> gf > ga
    ensures c == 'D' <==> gf == ga
    ensures c == 'L' <==> gf < ga
  {
    if gf > ga then 'W' else if gf == ga then 'D' else 'L'
  }

  /** PHP's `substr(s, -n)` for n > 0: the last n characters, or all of s when it is shorter. */
  function TakeLast(s: string, n: nat): (r: string)
    ensures |r| == if |s| < n then |s| else n
    ensures forall i :: 0 <= i < |r| ==> r[i] == s[|s| - |r| + i]
  {
    if |s| <= n then s else s[|s| - n..]
  }

  /** The bookkeeping invariant of a record: the counters agree with each other and the form. */
  predicate Consistent(s: Standing)
  {
    && s.won >= 0 && s.drawn >= 0 && s.lost >= 0
    && s.played == s.won + s.drawn + s.lost
    && s.points == 3 * s.won + s.drawn
    && s.goalDifference == s.goalsFor - s.goalsAgainst
    && |s.form| <= FormWindow && |s.form| <= s.played
    && forall i :: 0 <= i < |s.form| ==> s.form[i] in "WDL"
  }

  /** A record with every statistic and the form cleared (the group reset); guess is kept. */
  function Zeroed(s: Standing): (r: Standing)
    ensures Consistent(r)
    ensures r.played == 0 && r.points == 0 && r.goalsFor == 0 && r.goalsAgainst == 0 && r.form == ""
    ensures r.id == s.id && r.groupId == s.groupId && r.teamId == s.teamId && r.guess == s.guess
  {
    s.(played := 0, won := 0, drawn := 0, lost := 0, points := 0,
       goalsFor := 0, goalsAgainst := 0, goalDifference := 0, form := "")
  }

  /** One side's record after a match in which it scored gf and conceded ga. */
  function ApplyResult(s: Standing, gf: int, ga: int): (r: Standing)
    ensures r.id == s.id && r.groupId == s.groupId && r.teamId == s.teamId && r.guess == s.guess
    ensures r.played == s.played + 1
    ensures r.won >= s.won && r.drawn >= s.drawn && r.lost >= s.lost
    ensures (r.won - s.won) + (r.drawn - s.drawn) + (r.lost - s.lost) == 1
    ensures r.won > s.won <==> gf > ga
    ensures r.drawn > s.drawn <==> gf == ga
    ensures r.points - s.points == 3 * (r.won - s.won) + (r.drawn - s.drawn)
    ensures r.goalsFor == s.goalsFor + gf && r.goalsAgainst == s.goalsAgainst + ga
    ensures r.goalDifference == r.goalsFor - r.goalsAgainst
    ensures r.form == TakeLast(s.form + [ResultLetter(gf, ga)], FormWindow)
    ensures |r.form| == if |s.form| < FormWindow then |s.form| + 1 else FormWindow
  {
    var isWin := gf > ga;
    var isDraw := gf == ga;
    var gfTotal := s.goalsFor + gf;
    var gaTotal := s.goalsAgainst + ga;
    var form := TakeLast(s.form + [if isWin then 'W' else if isDraw then 'D' else 'L'], FormWindow);
    var r := s.(
      played := s.played + 1,
      won := s.won + (if isWin then 1 else 0),
      drawn := s.drawn + (if isDraw then 1 else 0),
      lost := s.lost + (if !isWin && !isDraw then 1 else 0),
      points := s.points + (if isWin then 3 else if isDraw then 1 else 0),
      goalsFor := gfTotal,
      goalsAgainst := gaTotal,
      goalDifference := gfTotal - gaTotal,
      form := form);
    r
  }

  /** The newest letter of the form is the letter of the result. */
  lemma ApplyResultNewestLetter(s: Standing, gf: int, ga: int)
    ensures ApplyResult(s, gf, ga).form[|ApplyResult(s, gf, ga).form| - 1] == ResultLetter(gf, ga)
  {
    var w := s.form + [ResultLetter(gf, ga)];
    var f := ApplyResult(s, gf, ga).form;
    assert f == w[|w| - |f|..];
  }

  /** A suffix of a string of result letters is a string of result letters. */
  lemma TakeLastLetters(s: string, n: nat)
    requires forall i :: 0 <= i < |s| ==> s[i] in "WDL"
    ensures forall i :: 0 <= i < |TakeLast(s, n)| ==> TakeLast(s, n)[i] in "WDL"
  {
    var r := TakeLast(s, n);
    forall i | 0 <= i < |r| ensures r[i] in "WDL" {
      var j := |s| - |r| + i;
      assert r[i] == s[j] && s[j] in "WDL";
    }
  }

  /** Every update keeps the bookkeeping invariant. */
  lemma ApplyResultConsistent(s: Standing, gf: int, ga: int)
    requires Consistent(s)
    ensures Consistent(ApplyResult(s, gf, ga))
  {
    var w := s.form + [ResultLetter(gf, ga)];
    forall i | 0 <= i < |w| ensures w[i] in "WDL" {
      if i < |s.form| {
        assert w[i] == s.form[i];
      }
    }
    TakeLastLetters(w, FormWindow);
  }

  /** A record after a sequence of (scored, conceded) results, oldest first. */
  function ApplyAll(s: Standing, results: seq<(int, int)>): Standing
  {
    if results == [] then s
    else
      var last := results[|results| - 1];
      ApplyResult(ApplyAll(s, results[..|results| - 1]), last.0, last.1)
  }

  function GoalsScored(results: seq<(int, int)>): int
  {
    if results == [] then 0 else GoalsScored(results[..|results| - 1]) + results[|results| - 1].0
  }

  function GoalsConceded(results: seq<(int, int)>): int
  {
    if results == [] then 0 else GoalsConceded(results[..|results| - 1]) + results[|results| - 1].1
  }

  function Wins(results: seq<(int, int)>): nat
  {
    if results == [] then 0
    else Wins(results[..|results| - 1]) + (if results[|results| - 1].0 > results[|results| - 1].1 then 1 else 0)
  }

  function Draws(results: seq<(int, int)>): nat
  {
    if results == [] then 0
    else Draws(results[..|results| - 1]) + (if results[|results| - 1].0 == results[|results| - 1].1 then 1 else 0)
  }

  /**
   * Folding results into a cleared record yields the totals over those results:
   * played, wins, draws, points and goals, with the bookkeeping invariant intact.
   */
  lemma {:induction false} ApplyAllTotals(s: Standing, results: seq<(int, int)>)
    requires Consistent(s) && s.played == 0 && s.goalsFor == 0 && s.goalsAgainst == 0
    ensures var r := ApplyAll(s, results);
      && Consistent(r)
      && r.played == |results|
      && r.won == Wins(results) && r.drawn == Draws(results)
      && r.points == 3 * Wins(results) + Draws(results)
      && r.goalsFor == GoalsScored(results) && r.goalsAgainst == GoalsConceded(results)
      && r.goalDifference == GoalsScored(results) - GoalsConceded(results)
  {
    if results != [] {
      ApplyAllTotals(s, results[..|results| - 1]);
      var last := results[|results| - 1];
      ApplyResultConsistent(ApplyAll(s, results[..|results| - 1]), last.0, last.1);
    }
  }

  /** A 3-1 win from a cleared record. */
  lemma ThreeOneWinFromZero(s: Standing)
    ensures var r := ApplyResult(Zeroed(s), 3, 1);
      r.points == 3 && r.played == 1 && r.won == 1 && r.drawn == 0 && r.lost == 0
      && r.goalDifference == 2 && r.form == "W"
  {
    assert Zeroed(s).form + [ResultLetter(3, 1)] == "W";
  }

  /** The index of the first record of group g (Collection::firstWhere('group_id', g)). */
  function FirstInGroup(rs: seq<Standing>, g: GroupId): (k: Option<nat>)
    ensures k.Some? ==> k.value < |rs| && rs[k.value].groupId == g
    ensures k.Some? ==> forall j :: 0 <= j < k.value ==> rs[j].groupId != g
    ensures k.None? <==> forall j :: 0 <= j < |rs| ==> rs[j].groupId != g
  {
    if rs == [] then None
    else if rs[0].groupId == g then Some(0)
    else match FirstInGroup(rs[1..], g)
      case None => None
      case Some(k) => Some(k + 1)
  }

  /** The team's records after one result in group g: only the first record of that group changes. */
  function ApplyInGroup(rs: seq<Standing>, g: GroupId, gf: int, ga: int): (r: seq<Standing>)
    ensures |r| == |rs|
    ensures FirstInGroup(rs, g).None? ==> r == rs
    ensures FirstInGroup(rs, g).Some? ==>
      forall j :: 0 <= j < |rs| && j != FirstInGroup(rs, g).value ==> r[j] == rs[j]
    ensures FirstInGroup(rs, g).Some? ==>
      r[FirstInGroup(rs, g).value] == ApplyResult(rs[FirstInGroup(rs, g).value], gf, ga)
  {
    match FirstInGroup(rs, g)
    case None => rs
    case Some(k) => rs[k := ApplyResult(rs[k], gf, ga)]
  }

  /** Collection::groupBy('team_id') of a list of records, as a map. */
  function GroupByTeam(records: seq<Standing>): (m: map<TeamId, seq<Standing>>)
    ensures forall t :: t in m <==> exists i :: 0 <= i < |records| && records[i].teamId == t
    ensures forall t :: t in m ==> forall j :: 0 <= j < |m[t]| ==> m[t][j].teamId == t
  {
    map t | t in (set i | 0 <= i < |records| :: records[i].teamId) :: WithKey(records, TeamOf, t)
  }

  /** One record step for team t, or None when t has no entry (an undefined key in the source). */
  function Step(rows: map<TeamId, seq<Standing>>, g: GroupId, t: TeamId, gf: int, ga: int)
    : (r: Option<map<TeamId, seq<Standing>>>)
    ensures r.Some? <==> t in rows
    ensures r.Some? ==> r.value.Keys == rows.Keys
    ensures r.Some? ==> forall u :: u in rows && u != t ==> r.value[u] == rows[u]
  {
    if t in rows then Some(rows[t := ApplyInGroup(rows[t], g, gf, ga)]) else None
  }

  /**
   * A record whose counters, goals and form were updated as the match services do it,
   * field by field, is the record after the result.
   */
  lemma FieldByField(s: Standing, gf: int, ga: int, t: Standing)
    requires t.id == s.id && t.groupId == s.groupId && t.teamId == s.teamId && t.guess == s.guess
    requires t.played == s.played + 1
    requires t.won == s.won + (if gf > ga then 1 else 0)
    requires t.drawn == s.drawn + (if gf == ga then 1 else 0)
    requires t.lost == s.lost + (if !(gf > ga) && !(gf == ga) then 1 else 0)
    requires t.points == s.points + (if gf > ga then 3 else if gf == ga then 1 else 0)
    requires t.goalsFor == s.goalsFor + gf && t.goalsAgainst == s.goalsAgainst + ga
    requires t.goalDifference == t.goalsFor - t.goalsAgainst
    requires t.form == TakeLast(s.form + [if gf > ga then 'W' else if gf == ga then 'D' else 'L'], FormWindow)
    ensures t == ApplyResult(s, gf, ga)
  {
    var r := ApplyResult(s, gf, ga);
    FormOfResult(s, gf, ga);
    SameStanding(t, r);
  }

  /** Two records with the same fields are the same record. */
  lemma SameStanding(a: Standing, b: Standing)
    requires a.id == b.id && a.groupId == b.groupId && a.teamId == b.teamId && a.guess == b.guess
    requires a.played == b.played && a.won == b.won && a.drawn == b.drawn && a.lost == b.lost
    requires a.points == b.points && a.goalsFor == b.goalsFor && a.goalsAgainst == b.goalsAgainst
    requires a.goalDifference == b.goalDifference && a.form == b.form
    ensures a == b
  {
  }

  /** The form the match services write is the form of the result. */
  lemma FormOfResult(s: Standing, gf: int, ga: int)
    ensures TakeLast(s.form + [if gf > ga then 'W' else if gf == ga then 'D' else 'L'], FormWindow) == ApplyResult(s, gf, ga).form
  {
  }

  /** The step that finds the group's record at position k updates that record alone. */
  lemma StepAt(rows: map<TeamId, seq<Standing>>, g: GroupId, t: TeamId, gf: int, ga: int, k: nat)
    requires t in rows && FirstInGroup(rows[t], g) == Some(k)
    ensures Step(rows, g, t, gf, ga) == Some(rows[t := rows[t][k := ApplyResult(rows[t][k], gf, ga)]])
  {
  }

  /**
   * The working set built by `getGroupTeamsByTeamIds(...)->groupBy('team_id')`: each
   * team id maps to that team's records, which the match services update in place.
   */
  class WorkingSet {
    var rows: map<TeamId, seq<Standing>>

    constructor (records: seq<Standing>)
      ensures rows == GroupByTeam(records)
    {
      rows := GroupByTeam(records);
    }

    /**
     * Records one side's result: the first record of `teamId` in group `groupId`
     * is updated field by field; with no such record nothing changes.
     */
    method ProcessStatsInMemory(groupId: GroupId, teamId: TeamId, gf: int, ga: int)
      requires teamId in rows
      modifies this
      ensures Step(old(rows), groupId, teamId, gf, ga) == Some(rows)
    {
      var rs := rows[teamId];
      var found := FirstInGroup(rs, groupId);
      if found.Some? {
        var gt := rs[found.value];
        ghost var before := gt;
        var isWin := gf > ga;
        var isDraw := gf == ga;
        gt := gt.(played := gt.played + 1);
        gt := gt.(won := gt.won + if isWin then 1 else 0);
        gt := gt.(drawn := gt.drawn + if isDraw then 1 else 0);
        gt := gt.(lost := gt.lost + if !isWin && !isDraw then 1 else 0);
        gt := gt.(points := gt.points + if isWin then 3 else if isDraw then 1 else 0);
        gt := gt.(goalsFor := gt.goalsFor + gf);
        gt := gt.(goalsAgainst := gt.goalsAgainst + ga);
        gt := gt.(goalDifference := gt.goalsFor - gt.goalsAgainst);
        gt := gt.(form := TakeLast(gt.form + [if isWin then 'W' else if isDraw then 'D' else 'L'], FormWindow));
        FieldByField(before, gf, ga, gt);
        StepAt(rows, groupId, teamId, gf, ga, found.value);
        rows := rows[teamId := rs[found.value := gt]];
      } else {
        assert rows[teamId := ApplyInGroup(rs, groupId, gf, ga)] == rows;
      }
    }
  }
}
