/**
 * The integer parts of the match engine: the form bonus read from a team's last
 * results, and the two goal-drawing loops. Every random draw is an oracle argument,
 * so each property holds whatever the draws are.
 */
module Engine {
  import opened Wrappers
  import opened Model
  import opened Standings

  /** The bonus counts at most this many trailing results. */
  const BonusWindow: nat := 3

  /** The most goals one side can score in a match. */
  const MaxGoals: nat := 9

  /** Number of occurrences of c in s. */
  function Occurrences(s: string, c: char): nat
  {
    if s == [] then 0 else Occurrences(s[..|s| - 1], c) + (if s[|s| - 1] == c then 1 else 0)
  }

  lemma {:induction false} OccurrencesBound(s: string, c: char, d: char)
    requires c != d
    ensures Occurrences(s, c) + Occurrences(s, d) <= |s|
  {
    if s != [] {
      OccurrencesBound(s[..|s| - 1], c, d);
    }
  }

  /** One character more of a prefix counts once more exactly when it is c. */
  lemma OccurrencesSnoc(s: string, i: nat, c: char)
    requires i < |s|
    ensures Occurrences(s[..i + 1], c) == Occurrences(s[..i], c) + (if s[i] == c then 1 else 0)
  {
    assert s[..i + 1][..i] == s[..i];
  }

  /** PHP's `empty()` on a string: true for "" and for "0". */
  predicate EmptyString(s: string)
  {
    s == "" || s == "0"
  }

  /**
   * The form bonus of a form string in half-units (one W is +0.5, one L is -0.5):
   * wins minus losses over the last three results, 0 for an empty form.
   */
  function FormBonus(form: string): int
  {
    if EmptyString(form) then 0
    else
      var last := TakeLast(form, BonusWindow);
      Occurrences(last, 'W') - Occurrences(last, 'L')
  }

  /** The bonus lies in [-1.5, 1.5], i.e. [-3, 3] in half-units. */
  lemma FormBonusRange(form: string)
    ensures -3 <= FormBonus(form) <= 3
  {
    if !EmptyString(form) {
      OccurrencesBound(TakeLast(form, BonusWindow), 'W', 'L');
    }
  }

  /** 'WWWWW' gives 1.5 and 'WWDLW' gives 0: older results do not count. */
  lemma FormBonusExamples()
    ensures FormBonus("WWWWW") == 3
    ensures FormBonus("WWDLW") == 0
    ensures FormBonus("") == 0
  {
    assert TakeLast("WWWWW", BonusWindow) == "WWW";
    assert "WWW"[..2] == "WW" && "WW"[..1] == "W" && "W"[..0] == "";
    assert TakeLast("WWDLW", BonusWindow) == "DLW";
    assert "DLW"[..2] == "DL" && "DL"[..1] == "D" && "D"[..0] == "";
  }

  /** The loop over the last three characters of a non-empty form. */
  method FormBonusOf(form: string) returns (bonus: int)
    ensures bonus == FormBonus(form)
    ensures -3 <= bonus <= 3
  {
    if EmptyString(form) {
      return 0;
    }
    var lastThree := TakeLast(form, BonusWindow);
    bonus := 0;
    var i := 0;
    while i < |lastThree|
      invariant 0 <= i <= |lastThree|
      invariant bonus == Occurrences(lastThree[..i], 'W') - Occurrences(lastThree[..i], 'L')
    {
      OccurrencesSnoc(lastThree, i, 'W');
      OccurrencesSnoc(lastThree, i, 'L');
      if lastThree[i] == 'W' {
        bonus := bonus + 1;
      }
      if lastThree[i] == 'L' {
        bonus := bonus - 1;
      }
      i := i + 1;
    }
    assert lastThree[..i] == lastThree;
    FormBonusRange(form);
  }

  /** Key of an entry of a keyed collection: a team id after groupBy, else a list position. */
  datatype Key = TeamKey(team: TeamId) | Position(index: nat)

  /** An entry of the stats collection: one record, or the records of one team. */
  datatype Entry = Record(record: Standing) | Records(records: seq<Standing>)

  /** A keyed collection, in iteration order. */
  type Stats = seq<(Key, Entry)>

  /** Position of the entry with the given key, if any. */
  function FindKey(c: Stats, k: Key): (i: Option<nat>)
    ensures i.Some? ==> i.value < |c| && c[i.value].0 == k
    ensures i.Some? ==> forall j :: 0 <= j < i.value ==> c[j].0 != k
    ensures i.None? <==> forall j :: 0 <= j < |c| ==> c[j].0 != k
  {
    if c == [] then None
    else if c[0].0 == k then Some(0)
    else match FindKey(c[1..], k)
      case None => None
      case Some(i) => Some(i + 1)
  }

  /**
   * `firstWhere('team_id', t)` on the collection: the first single record of team t.
   * An entry holding a list of records has no `team_id` attribute and never matches.
   */
  function FirstOfTeam(c: Stats, t: TeamId): (r: Option<Standing>)
    ensures r.Some? ==> r.value.teamId == t && exists j :: 0 <= j < |c| && c[j].1 == Record(r.value)
    ensures r.None? <==> forall j :: 0 <= j < |c| ==> !(c[j].1.Record? && c[j].1.record.teamId == t)
  {
    if c == [] then None
    else if c[0].1.Record? && c[0].1.record.teamId == t then Some(c[0].1.record)
    else
      var r := FirstOfTeam(c[1..], t);
      assert forall j :: 1 <= j < |c| ==> c[j] == c[1..][j - 1];
      r
  }

  /**
   * The record the match engine reads the form from: the entry keyed by the team
   * (its first record of group g when the entry is a list), otherwise the first
   * record of the team anywhere in the collection.
   */
  function LookupStats(c: Stats, g: GroupId, t: TeamId): (r: Option<Standing>)
    ensures FindKey(c, TeamKey(t)).Some? && c[FindKey(c, TeamKey(t)).value].1.Records? ==>
      var rs := c[FindKey(c, TeamKey(t)).value].1.records;
      r == match FirstInGroup(rs, g) case None => None case Some(k) => Some(rs[k])
    ensures FindKey(c, TeamKey(t)).Some? && c[FindKey(c, TeamKey(t)).value].1.Record? ==>
      r == Some(c[FindKey(c, TeamKey(t)).value].1.record)
    ensures FindKey(c, TeamKey(t)).None? ==> r == FirstOfTeam(c, t)
  {
    match FindKey(c, TeamKey(t))
    case Some(i) =>
      (match c[i].1
       case Records(rs) => (match FirstInGroup(rs, g) case None => None case Some(k) => Some(rs[k]))
       case Record(s) => Some(s))
    case None => FirstOfTeam(c, t)
  }

  /** `MatchEngine::getFormBonus` in half-units: 0 without a record or with an empty form. */
  method GetFormBonus(c: Stats, g: GroupId, t: TeamId) returns (bonus: int)
    ensures LookupStats(c, g, t).None? ==> bonus == 0
    ensures LookupStats(c, g, t).Some? ==> bonus == FormBonus(LookupStats(c, g, t).value.form)
    ensures -3 <= bonus <= 3
  {
    var stats := LookupStats(c, g, t);
    if stats.None? {
      return 0;
    }
    bonus := FormBonusOf(stats.value.form);
  }

  /**
   * The monolith's getFormBonus: the team's entry of the working set supplies its first
   * record of group g, whose form gives the bonus. A team without an entry is an
   * undefined key, which throws: None.
   */
  method LeagueGetFormBonus(rows: map<TeamId, seq<Standing>>, g: GroupId, t: TeamId) returns (bonus: Option<int>)
    ensures bonus.None? <==> t !in rows
    ensures t in rows && FirstInGroup(rows[t], g).None? ==> bonus == Some(0)
    ensures t in rows && FirstInGroup(rows[t], g).Some? ==> bonus == Some(FormBonus(rows[t][FirstInGroup(rows[t], g).value].form))
    ensures bonus.Some? ==> -3 <= bonus.value <= 3
  {
    if t !in rows {
      return None;
    }
    var found := FirstInGroup(rows[t], g);
    if found.None? {
      return Some(0);
    }
    var b := FormBonusOf(rows[t][found.value].form);
    bonus := Some(b);
  }

  /**
   * The number of goals the draws allow: the first i below 9 whose draw fails,
   * or 9 when the first nine draws all succeed.
   */
  function GoalCount(draw: nat -> bool, from: nat): nat
    requires from <= MaxGoals
    decreases MaxGoals - from
  {
    if from == MaxGoals || !draw(from) then from else GoalCount(draw, from + 1)
  }

  lemma {:induction false} GoalCountSpec(draw: nat -> bool, from: nat)
    requires from <= MaxGoals
    requires forall i :: 0 <= i < from ==> draw(i)
    ensures var g := GoalCount(draw, from);
      from <= g <= MaxGoals && (forall i :: 0 <= i < g ==> draw(i)) && (g == MaxGoals || !draw(g))
    decreases MaxGoals - from
  {
    if from < MaxGoals && draw(from) {
      GoalCountSpec(draw, from + 1);
    }
  }

  /**
   * A goal count is characterised by its draws: g is the count exactly when g is at
   * most 9, every draw before g succeeds, and g is 9 or its own draw fails.
   */
  lemma GoalCountCharacterisation(draw: nat -> bool, g: nat)
    ensures g == GoalCount(draw, 0) <==>
      g <= MaxGoals && (forall i :: 0 <= i < g ==> draw(i)) && (g == MaxGoals || !draw(g))
  {
    GoalCountSpec(draw, 0);
  }

  /**
   * `MatchEngine::generateRealisticGoals`: a do-while that multiplies p by a uniform
   * draw until p falls to exp(-lambda) or ten factors were drawn, returning k - 1.
   * `stays(i)` is whether p is still above the bound after its (i+1)-th factor.
   */
  method GenerateRealisticGoals(stays: nat -> bool) returns (goals: nat)
    ensures goals <= MaxGoals
    ensures goals == GoalCount(stays, 0)
  {
    var k: nat := 1;
    while stays(k - 1) && k < 10
      invariant 1 <= k <= 10
      invariant forall i :: 0 <= i < k - 1 ==> stays(i)
      decreases 10 - k
    {
      k := k + 1;
    }
    goals := if k - 1 > 0 then k - 1 else 0;
    GoalCountCharacterisation(stays, goals);
  }

  /**
   * The monolith's generateRealisticGoals: while the draw for the next goal succeeds,
   * add a goal, stopping at 9. `scores(i)` is whether the draw with i goals so far succeeds.
   */
  method LeagueGenerateRealisticGoals(scores: nat -> bool) returns (goals: nat)
    ensures goals <= MaxGoals
    ensures goals == GoalCount(scores, 0)
  {
    goals := 0;
    while true
      invariant goals < MaxGoals
      invariant forall i :: 0 <= i < goals ==> scores(i)
      decreases MaxGoals - goals
    {
      if scores(goals) {
        goals := goals + 1;
        if goals >= MaxGoals {
          break;
        }
      } else {
        break;
      }
    }
    GoalCountCharacterisation(scores, goals);
  }
}
