/**
 * The score correction of both match services: a fixture gets a new score and is marked
 * played, the standings of its group are cleared, and every played fixture of the group
 * is replayed, in week order, into a working set that is then saved.
 */
module Correction {
  import opened Wrappers
  import opened Model
  import opened Collections
  import opened Standings
  import opened Matches

  /** `findOrFail`: the first fixture with the given id. */
  function FindFixture(fs: seq<Fixture>, id: FixtureId): (p: Option<nat>)
    ensures p.Some? ==> p.value < |fs| && fs[p.value].id == id
    ensures p.Some? ==> forall j :: 0 <= j < p.value ==> fs[j].id != id
    ensures p.None? <==> forall j :: 0 <= j < |fs| ==> fs[j].id != id
  {
    if fs == [] then None
    else if fs[0].id == id then Some(0)
    else match FindFixture(fs[1..], id)
      case None => None
      case Some(p) => Some(p + 1)
  }

  /** The first position with the id is the one found. */
  lemma {:induction false} FindFixtureFirst(fs: seq<Fixture>, id: FixtureId, p: nat)
    requires p < |fs| && fs[p].id == id
    requires forall j :: 0 <= j < p ==> fs[j].id != id
    ensures FindFixture(fs, id) == Some(p)
  {
    if p > 0 {
      assert fs[0].id != id;
      FindFixtureFirst(fs[1..], id, p - 1);
    }
  }

  /** `resetGroupStats`: every record of group g has its statistics and form cleared, its guess kept. */
  function ResetGroup(records: seq<Standing>, g: GroupId): (r: seq<Standing>)
    ensures |r| == |records|
    ensures forall i :: 0 <= i < |records| ==> r[i] == if records[i].groupId == g then Zeroed(records[i]) else records[i]
  {
    seq(|records|, i requires 0 <= i < |records| => if records[i].groupId == g then Zeroed(records[i]) else records[i])
  }

  function GroupPlayed(f: Fixture): (GroupId, bool) { (f.groupId, f.played) }

  function WeekOf(f: Fixture): int { f.week }

  /**
   * `getPlayedMatchesByGroup`: the played fixtures of group g, each as often as in the
   * table, in non-decreasing week order.
   */
  function PlayedByWeek(fs: seq<Fixture>, g: GroupId): (ms: seq<Fixture>)
    ensures forall k :: 0 <= k < |ms| ==> ms[k].groupId == g && ms[k].played
    ensures forall x :: multiset(ms)[x] == if x.groupId == g && x.played then multiset(fs)[x] else 0
    ensures KeysNonDecreasing(ms, WeekOf)
  {
    var kept := WithKey(fs, GroupPlayed, (g, true));
    var ms := SortByKey(kept, WeekOf);
    forall x ensures multiset(ms)[x] == if x.groupId == g && x.played then multiset(fs)[x] else 0 {
      WithKeyMultiset(fs, GroupPlayed, (g, true), x);
    }
    forall k | 0 <= k < |ms| ensures ms[k].groupId == g && ms[k].played {
      assert ms[k] in multiset(ms);
      assert ms[k] in multiset(kept);
      var i :| 0 <= i < |kept| && kept[i] == ms[k];
    }
    ms
  }

  /** Which records a correction loads into its working set. */
  datatype Scope =
    | TeamRecords  // every record of every team with a record in the group (`getGroupTeamsByTeamIds`)
    | GroupRecords // the records of the group only

  /** The teams with a record in group g. */
  function GroupTeamIds(records: seq<Standing>, g: GroupId): set<TeamId>
  {
    set i | 0 <= i < |records| && records[i].groupId == g :: records[i].teamId
  }

  /** The records loaded for a correction of group g: all of them from the table, and every record of g among them. */
  function Loaded(records: seq<Standing>, g: GroupId, scope: Scope): (r: seq<Standing>)
    ensures forall x :: x in r ==> x in records
    ensures forall x :: x in records && x.groupId == g ==> x in r
  {
    match scope
    case TeamRecords =>
      var r := RecordsOf(records, GroupTeamIds(records, g));
      forall x | x in records && x.groupId == g ensures x in r {
        var i :| 0 <= i < |records| && records[i] == x;
      }
      r
    case GroupRecords =>
      WithKeyMembers(records, GroupOf, g);
      WithKey(records, GroupOf, g)
  }

  /**
   * `updateMatchAndRecalculate`: the fixture with the given id gets the score and is
   * marked played, group g of that fixture is reset, the records of the scope are
   * loaded, group g's played fixtures are replayed in week order, and the working set is
   * saved with the given columns. No such fixture, or a side without a record, throws
   * and rolls back.
   */
  function Recalculated(t: Tables, id: FixtureId, homeGoals: int, awayGoals: int, scope: Scope, cols: Columns)
    : (r: Result<Tables, PlayError>)
    ensures r == Err(FixtureNotFound(id)) <==> FindFixture(t.fixtures, id).None?
    ensures r.Err? ==> r.error in {FixtureNotFound(id), MissingRecord}
    ensures r.Ok? ==> var p := FindFixture(t.fixtures, id).value;
      r.value.fixtures == t.fixtures[p := Scored(t.fixtures[p], (homeGoals, awayGoals))]
    ensures r.Ok? ==> |r.value.records| == |t.records|
  {
    match FindFixture(t.fixtures, id)
    case None => Err(FixtureNotFound(id))
    case Some(p) =>
      var m := Scored(t.fixtures[p], (homeGoals, awayGoals));
      Rebuilt(t.fixtures[p := m], ResetGroup(t.records, m.groupId), m.groupId, scope, cols)
  }

  /**
   * The tables a correction of group g leaves, from the fixture table with the new score
   * and the reset records: the group's played fixtures replayed over its loaded records.
   */
  function Rebuilt(fixtures: seq<Fixture>, reset: seq<Standing>, g: GroupId, scope: Scope, cols: Columns)
    : (r: Result<Tables, PlayError>)
    ensures r.Err? ==> r.error == MissingRecord
    ensures r.Ok? ==> r.value.fixtures == fixtures && |r.value.records| == |reset|
  {
    match Replay(GroupByTeam(Loaded(reset, g, scope)), PlayedByWeek(fixtures, g))
    case None => Err(MissingRecord)
    case Some(rows) => Ok(Tables(fixtures, SaveRows(reset, rows, cols)))
  }

  /** The loop over the replayed matches: both sides of each, in order. */
  method ReplayMatches(groupTeams: WorkingSet, ms: seq<Fixture>) returns (ok: bool)
    modifies groupTeams
    ensures ok <==> Replay(old(groupTeams.rows), ms).Some?
    ensures ok ==> Replay(old(groupTeams.rows), ms) == Some(groupTeams.rows)
  {
    ghost var rows0 := groupTeams.rows;
    var k := 0;
    while k < |ms|
      invariant 0 <= k <= |ms|
      invariant Replay(rows0, ms[..k]) == Some(groupTeams.rows)
      modifies groupTeams
    {
      ReplayStep(rows0, ms, k, groupTeams.rows);
      ok := RecordMatch(groupTeams, ms[k]);
      if !ok {
        ReplayPrefixFails(rows0, ms, k + 1);
        return;
      }
      k := k + 1;
    }
    assert ms[..k] == ms;
    ok := true;
  }

  /** The transaction of `updateMatchAndRecalculate`, for a load scope and a column list. */
  method Recalculate(t: Tables, id: FixtureId, homeGoals: int, awayGoals: int, scope: Scope, cols: Columns)
    returns (r: Result<bool, PlayError>, after: Tables)
    ensures var c := Recalculated(t, id, homeGoals, awayGoals, scope, cols);
      c.Err? ==> r == Err(c.error) && after == t
    ensures var c := Recalculated(t, id, homeGoals, awayGoals, scope, cols);
      c.Ok? ==> r == Ok(true) && after == c.value
  {
    var found := FindFixture(t.fixtures, id);
    if found.None? {
      return Err(FixtureNotFound(id)), t;
    }
    var p := found.value;
    var m := Scored(t.fixtures[p], (homeGoals, awayGoals));
    var fixtures := t.fixtures[p := m];
    var reset := ResetGroup(t.records, m.groupId);
    var playedMatches := PlayedByWeek(fixtures, m.groupId);
    var groupTeams := new WorkingSet(Loaded(reset, m.groupId, scope));
    var ok := ReplayMatches(groupTeams, playedMatches);
    if !ok {
      return Err(MissingRecord), t;
    }
    r := Ok(true);
    after := Tables(fixtures, SaveRows(reset, groupTeams.rows, cols));
  }

  /**
   * `MatchService::updateMatchAndRecalculate` as written: once the fixture is found, the
   * group's UUID is handed to `getPlayedMatchesByGroup`, whose parameter is declared `int`,
   * so the call throws and the transaction rolls back the new score and the reset.
   */
  method UpdateMatchAndRecalculate(t: Tables, id: FixtureId, homeGoals: int, awayGoals: int)
    returns (r: Result<bool, PlayError>, after: Tables)
    ensures FindFixture(t.fixtures, id).None? ==> r == Err(FixtureNotFound(id))
    ensures FindFixture(t.fixtures, id).Some? ==> r == Err(GroupIdNotInteger)
    ensures after == t
  {
    var found := FindFixture(t.fixtures, id);
    if found.None? {
      return Err(FixtureNotFound(id)), t;
    }
    return Err(GroupIdNotInteger), t;
  }

  /**
   * `MatchService::updateMatchAndRecalculate` with its evident intent: the group's played
   * fixtures are loaded by its id, every record of the group's teams is loaded, and every
   * column is saved.
   */
  method CorrectedUpdateMatchAndRecalculate(t: Tables, id: FixtureId, homeGoals: int, awayGoals: int)
    returns (r: Result<bool, PlayError>, after: Tables)
    ensures var c := Recalculated(t, id, homeGoals, awayGoals, TeamRecords, AllColumns);
      (c.Err? ==> r == Err(c.error) && after == t) && (c.Ok? ==> r == Ok(true) && after == c.value)
  {
    r, after := Recalculate(t, id, homeGoals, awayGoals, TeamRecords, AllColumns);
  }

  /** Team u has a record in group g. */
  predicate RecordedInGroup(records: seq<Standing>, g: GroupId, u: TeamId)
  {
    exists i :: 0 <= i < |records| && records[i].groupId == g && records[i].teamId == u
  }

  /** Every side of every fixture of group g has a record in g, as the draw and the schedule leave the tables. */
  predicate SidesRecorded(fs: seq<Fixture>, records: seq<Standing>, g: GroupId)
  {
    forall k :: 0 <= k < |fs| && fs[k].groupId == g ==>
      RecordedInGroup(records, g, fs[k].home) && RecordedInGroup(records, g, fs[k].away)
  }

  /** A team with a record in group g has an entry in the working set of a correction of g. */
  lemma SideLoaded(records: seq<Standing>, g: GroupId, scope: Scope, u: TeamId)
    requires RecordedInGroup(records, g, u)
    ensures u in GroupByTeam(Loaded(ResetGroup(records, g), g, scope))
  {
    var i :| 0 <= i < |records| && records[i].groupId == g && records[i].teamId == u;
    var reset := ResetGroup(records, g);
    var loaded := Loaded(reset, g, scope);
    assert reset[i] in reset && reset[i].groupId == g;
    var q :| 0 <= q < |loaded| && loaded[q] == reset[i];
  }

  /** Scoring a fixture keeps its group and its sides. */
  lemma ScoredSidesRecorded(fs: seq<Fixture>, records: seq<Standing>, g: GroupId, p: nat, score: (int, int))
    requires p < |fs| && SidesRecorded(fs, records, g)
    ensures SidesRecorded(fs[p := Scored(fs[p], score)], records, g)
  {
  }

  /** The played fixtures of group g that are replayed come from the table, so their sides have records. */
  lemma PlayedSidesRecorded(fs: seq<Fixture>, records: seq<Standing>, g: GroupId, k: nat)
    requires SidesRecorded(fs, records, g) && k < |PlayedByWeek(fs, g)|
    ensures RecordedInGroup(records, g, PlayedByWeek(fs, g)[k].home)
    ensures RecordedInGroup(records, g, PlayedByWeek(fs, g)[k].away)
  {
    var ms := PlayedByWeek(fs, g);
    assert ms[k] in multiset(ms);
    assert ms[k] in fs;
    var j :| 0 <= j < |fs| && fs[j] == ms[k];
  }

  /** The replay of a correction of group g finds every side when every side of g's fixtures has a record. */
  lemma ReplayFindsSides(fs: seq<Fixture>, records: seq<Standing>, g: GroupId, scope: Scope)
    requires SidesRecorded(fs, records, g)
    ensures Replay(GroupByTeam(Loaded(ResetGroup(records, g), g, scope)), PlayedByWeek(fs, g)).Some?
  {
    var ms := PlayedByWeek(fs, g);
    var rows := GroupByTeam(Loaded(ResetGroup(records, g), g, scope));
    forall k | 0 <= k < |ms| ensures ms[k].home in rows && ms[k].away in rows {
      PlayedSidesRecorded(fs, records, g, k);
      SideLoaded(records, g, scope, ms[k].home);
      SideLoaded(records, g, scope, ms[k].away);
    }
  }

  /**
   * The intended correction of a found fixture succeeds whenever every side of its
   * group's fixtures has a record in the group, for either load scope and column list.
   */
  lemma RecalculatedSucceeds(t: Tables, id: FixtureId, homeGoals: int, awayGoals: int, scope: Scope, cols: Columns)
    requires FindFixture(t.fixtures, id).Some?
    requires SidesRecorded(t.fixtures, t.records, t.fixtures[FindFixture(t.fixtures, id).value].groupId)
    ensures Recalculated(t, id, homeGoals, awayGoals, scope, cols).Ok?
  {
    var p := FindFixture(t.fixtures, id).value;
    var g := t.fixtures[p].groupId;
    ScoredSidesRecorded(t.fixtures, t.records, g, p, (homeGoals, awayGoals));
    ReplayFindsSides(t.fixtures[p := Scored(t.fixtures[p], (homeGoals, awayGoals))], t.records, g, scope);
  }

  /**
   * The monolith's `updateMatchAndRecalculate`: loads the group's records and saves
   * played, won, points, goals and form, but not drawn, lost or guess.
   */
  method LeagueUpdateMatchAndRecalculate(t: Tables, id: FixtureId, homeGoals: int, awayGoals: int)
    returns (r: Result<bool, PlayError>, after: Tables)
    ensures var c := Recalculated(t, id, homeGoals, awayGoals, GroupRecords, CorrectionColumns);
      (c.Err? ==> r == Err(c.error) && after == t) && (c.Ok? ==> r == Ok(true) && after == c.value)
  {
    r, after := Recalculate(t, id, homeGoals, awayGoals, GroupRecords, CorrectionColumns);
  }

  /** The monolith's correction with its evident intent: drawn and lost are saved with the other statistics. */
  method CorrectedLeagueUpdateMatchAndRecalculate(t: Tables, id: FixtureId, homeGoals: int, awayGoals: int)
    returns (r: Result<bool, PlayError>, after: Tables)
    ensures var c := Recalculated(t, id, homeGoals, awayGoals, GroupRecords, StatColumns);
      (c.Err? ==> r == Err(c.error) && after == t) && (c.Ok? ==> r == Ok(true) && after == c.value)
  {
    r, after := Recalculate(t, id, homeGoals, awayGoals, GroupRecords, StatColumns);
  }

  // ---------------------------------------------------------------------------
  // What a correction leaves behind
  // ---------------------------------------------------------------------------

  /** Record ids are primary keys: no two records share one. */
  predicate UniqueRecordIds(records: seq<Standing>)
  {
    forall i, j :: 0 <= i < |records| && 0 <= j < |records| && records[i].id == records[j].id ==> i == j
  }

  /**
   * A working row of team u descends from a record of the table: it has the record's id,
   * group, team and guess; outside group g it is the record itself; inside it the
   * bookkeeping invariant holds.
   */
  predicate Descends(w: Standing, u: TeamId, records: seq<Standing>, g: GroupId)
  {
    && w.teamId == u
    && (exists x :: x in records && x.id == w.id && x.groupId == w.groupId && x.teamId == w.teamId
          && x.guess == w.guess && (w.groupId != g ==> w == x))
    && (w.groupId == g ==> Consistent(w))
  }

  predicate DerivedFrom(rows: Rows, records: seq<Standing>, g: GroupId)
  {
    forall u, j :: u in rows && 0 <= j < |rows[u]| ==> Descends(rows[u][j], u, records, g)
  }

  /** A working set freshly built from records of a reset table descends from it. */
  lemma LoadedDerived(records: seq<Standing>, g: GroupId, loaded: seq<Standing>)
    requires forall x :: x in loaded ==> x in records
    requires forall i :: 0 <= i < |records| && records[i].groupId == g ==> Consistent(records[i])
    ensures DerivedFrom(GroupByTeam(loaded), records, g)
  {
    var rows := GroupByTeam(loaded);
    forall u, j | u in rows && 0 <= j < |rows[u]| ensures Descends(rows[u][j], u, records, g) {
      var w := rows[u][j];
      WithKeyMembers(loaded, TeamOf, u);
      assert w in WithKey(loaded, TeamOf, u);
      assert w in records;
      var i :| 0 <= i < |records| && records[i] == w;
    }
  }

  /** Recording one side of a group-g match keeps every working row descended. */
  lemma StepDerived(rows: Rows, records: seq<Standing>, g: GroupId, u: TeamId, gf: int, ga: int)
    requires DerivedFrom(rows, records, g) && u in rows
    ensures DerivedFrom(Step(rows, g, u, gf, ga).value, records, g)
  {
    var after := Step(rows, g, u, gf, ga).value;
    var first := FirstInGroup(rows[u], g);
    forall v, j | v in after && 0 <= j < |after[v]| ensures Descends(after[v][j], v, records, g) {
      if v != u || first.None? || j != first.value {
        assert after[v][j] == rows[v][j];
      } else {
        AppliedDescends(rows[u][j], u, records, g, gf, ga);
      }
    }
  }

  /** A group-g record of a descended row, after one result, still descends. */
  lemma AppliedDescends(w: Standing, u: TeamId, records: seq<Standing>, g: GroupId, gf: int, ga: int)
    requires Descends(w, u, records, g) && w.groupId == g
    ensures Descends(ApplyResult(w, gf, ga), u, records, g)
  {
    var x :| x in records && x.id == w.id && x.groupId == w.groupId && x.teamId == w.teamId
      && x.guess == w.guess;
    ApplyResultConsistent(w, gf, ga);
    var a := ApplyResult(w, gf, ga);
    assert x.id == a.id && x.groupId == a.groupId && x.teamId == a.teamId && x.guess == a.guess;
  }

  /** Replaying matches of group g keeps every working row descended. */
  lemma {:induction false} ReplayDerived(rows: Rows, records: seq<Standing>, g: GroupId, ms: seq<Fixture>)
    requires DerivedFrom(rows, records, g)
    requires forall k :: 0 <= k < |ms| ==> ms[k].groupId == g
    ensures Replay(rows, ms).Some? ==> DerivedFrom(Replay(rows, ms).value, records, g)
  {
    if ms != [] {
      var init := ms[..|ms| - 1];
      var m := ms[|ms| - 1];
      ReplayDerived(rows, records, g, init);
      match Replay(rows, init)
      case None =>
      case Some(mid) =>
        if m.home in mid {
          StepDerived(mid, records, g, m.home, m.homeGoals, m.awayGoals);
          var mid2 := Step(mid, g, m.home, m.homeGoals, m.awayGoals).value;
          if m.away in mid2 {
            StepDerived(mid2, records, g, m.away, m.awayGoals, m.homeGoals);
          }
        }
    }
  }

  /**
   * Saving a descended working set gives each record back its id, group, team and guess;
   * a record outside group g is saved unchanged, and inside it a consistent record stays
   * consistent when the statistics are all written.
   */
  lemma SavedRecord(records: seq<Standing>, rows: Rows, g: GroupId, cols: Columns, i: nat)
    requires UniqueRecordIds(records) && DerivedFrom(rows, records, g) && i < |records|
    ensures Zeroed(Saved(records[i], rows, cols)) == Zeroed(records[i])
    ensures records[i].groupId != g ==> Saved(records[i], rows, cols) == records[i]
    ensures records[i].groupId == g && cols != CorrectionColumns && Consistent(records[i]) ==>
      Consistent(Saved(records[i], rows, cols))
  {
    var x := records[i];
    if x.teamId in rows {
      match FindId(rows[x.teamId], x.id)
      case None =>
      case Some(j) =>
        var w := rows[x.teamId][j];
        assert Descends(w, x.teamId, records, g);
        var y :| y in records && y.id == w.id && y.groupId == w.groupId && y.teamId == w.teamId
          && y.guess == w.guess && (w.groupId != g ==> w == y);
        var k :| 0 <= k < |records| && records[k] == y;
        assert k == i;
        if cols != CorrectionColumns && x.groupId == g {
          UpsertConsistent(x, w, cols);
        }
    }
  }

  /** Resetting keeps record ids, so they stay unique; a reset record of g is consistent and its own reset. */
  lemma ResetFacts(records: seq<Standing>, g: GroupId)
    requires UniqueRecordIds(records)
    ensures UniqueRecordIds(ResetGroup(records, g))
    ensures forall i :: 0 <= i < |records| && ResetGroup(records, g)[i].groupId == g ==>
      Consistent(ResetGroup(records, g)[i]) && ResetGroup(records, g)[i] == Zeroed(ResetGroup(records, g)[i])
  {
  }

  /** Resetting the saved table of a correction gives back the reset table it started from. */
  lemma ResetAfterSave(reset: seq<Standing>, rows: Rows, g: GroupId, cols: Columns)
    requires UniqueRecordIds(reset) && DerivedFrom(rows, reset, g)
    requires forall i :: 0 <= i < |reset| && reset[i].groupId == g ==> reset[i] == Zeroed(reset[i])
    ensures ResetGroup(SaveRows(reset, rows, cols), g) == reset
  {
    var saved := SaveRows(reset, rows, cols);
    forall i | 0 <= i < |reset| ensures ResetGroup(saved, g)[i] == reset[i] {
      SavedRecord(reset, rows, g, cols, i);
    }
  }

  /** The working set a successful correction of group g saves, and the reset table it saves into. */
  lemma RecalculatedSaves(t: Tables, id: FixtureId, homeGoals: int, awayGoals: int, scope: Scope, cols: Columns)
    returns (p: nat, rows: Rows)
    requires Recalculated(t, id, homeGoals, awayGoals, scope, cols).Ok?
    ensures p < |t.fixtures| && FindFixture(t.fixtures, id) == Some(p)
    ensures var m := Scored(t.fixtures[p], (homeGoals, awayGoals));
      Replay(GroupByTeam(Loaded(ResetGroup(t.records, m.groupId), m.groupId, scope)),
        PlayedByWeek(t.fixtures[p := m], m.groupId)) == Some(rows)
    ensures Recalculated(t, id, homeGoals, awayGoals, scope, cols).value.records ==
      SaveRows(ResetGroup(t.records, t.fixtures[p].groupId), rows, cols)
  {
    p := FindFixture(t.fixtures, id).value;
    var m := Scored(t.fixtures[p], (homeGoals, awayGoals));
    rows := Replay(GroupByTeam(Loaded(ResetGroup(t.records, m.groupId), m.groupId, scope)),
      PlayedByWeek(t.fixtures[p := m], m.groupId)).value;
  }

  /** With unique record ids, the saved rows descend from the reset table. */
  lemma RecalculatedRows(t: Tables, id: FixtureId, homeGoals: int, awayGoals: int, scope: Scope, cols: Columns)
    returns (p: nat, reset: seq<Standing>, rows: Rows)
    requires UniqueRecordIds(t.records) && Recalculated(t, id, homeGoals, awayGoals, scope, cols).Ok?
    ensures p < |t.fixtures| && FindFixture(t.fixtures, id) == Some(p)
    ensures reset == ResetGroup(t.records, t.fixtures[p].groupId)
    ensures DerivedFrom(rows, reset, t.fixtures[p].groupId)
    ensures Recalculated(t, id, homeGoals, awayGoals, scope, cols).value.records == SaveRows(reset, rows, cols)
  {
    p, rows := RecalculatedSaves(t, id, homeGoals, awayGoals, scope, cols);
    var m := Scored(t.fixtures[p], (homeGoals, awayGoals));
    var g := m.groupId;
    reset := ResetGroup(t.records, g);
    var loaded := Loaded(reset, g, scope);
    ResetFacts(t.records, g);
    LoadedDerived(reset, g, loaded);
    ReplayDerived(GroupByTeam(loaded), reset, g, PlayedByWeek(t.fixtures[p := m], g));
  }

  /**
   * A correction depends only on the fixture table after the score is set and on the
   * reset table: two tables that agree on these give the same correction.
   */
  lemma RecalculatedDependsOn(t: Tables, u: Tables, id: FixtureId, homeGoals: int, awayGoals: int, scope: Scope, cols: Columns, p: nat)
    requires p < |t.fixtures| && FindFixture(t.fixtures, id) == Some(p)
    requires p < |u.fixtures| && FindFixture(u.fixtures, id) == Some(p)
    requires t.fixtures[p := Scored(t.fixtures[p], (homeGoals, awayGoals))] ==
      u.fixtures[p := Scored(u.fixtures[p], (homeGoals, awayGoals))]
    requires ResetGroup(t.records, t.fixtures[p].groupId) == ResetGroup(u.records, t.fixtures[p].groupId)
    ensures Recalculated(t, id, homeGoals, awayGoals, scope, cols) == Recalculated(u, id, homeGoals, awayGoals, scope, cols)
  {
    var m := Scored(t.fixtures[p], (homeGoals, awayGoals));
    assert u.fixtures[p := Scored(u.fixtures[p], (homeGoals, awayGoals))][p] == m;
  }

  /**
   * A correction only rewrites group g: every record of another group is saved
   * unchanged, and when every statistic is written back each record of g satisfies the
   * bookkeeping invariant (played = won + drawn + lost, points = 3 won + drawn,
   * goal difference, the form window).
   */
  lemma RecalculatedConsistent(t: Tables, id: FixtureId, homeGoals: int, awayGoals: int, scope: Scope, cols: Columns)
    requires UniqueRecordIds(t.records)
    ensures var r := Recalculated(t, id, homeGoals, awayGoals, scope, cols);
      r.Ok? ==> forall i :: 0 <= i < |t.records| && t.records[i].groupId != t.fixtures[FindFixture(t.fixtures, id).value].groupId ==>
        r.value.records[i] == t.records[i]
    ensures var r := Recalculated(t, id, homeGoals, awayGoals, scope, cols);
      r.Ok? && cols != CorrectionColumns ==>
        forall i :: 0 <= i < |t.records| && t.records[i].groupId == t.fixtures[FindFixture(t.fixtures, id).value].groupId ==>
          Consistent(r.value.records[i])
  {
    if Recalculated(t, id, homeGoals, awayGoals, scope, cols).Ok? {
      var p, reset, rows := RecalculatedRows(t, id, homeGoals, awayGoals, scope, cols);
      var g := t.fixtures[p].groupId;
      ResetFacts(t.records, g);
      forall i | 0 <= i < |t.records|
        ensures t.records[i].groupId != g ==> SaveRows(reset, rows, cols)[i] == t.records[i]
        ensures t.records[i].groupId == g && cols != CorrectionColumns ==> Consistent(SaveRows(reset, rows, cols)[i])
      {
        SavedRecord(reset, rows, g, cols, i);
      }
    }
  }

  /**
   * Repeating a correction with the same score changes nothing: the result depends only
   * on the played fixtures of the group, which the first correction already fixed.
   */
  lemma RecalculatedIdempotent(t: Tables, id: FixtureId, homeGoals: int, awayGoals: int, scope: Scope, cols: Columns)
    requires UniqueRecordIds(t.records)
    ensures var r := Recalculated(t, id, homeGoals, awayGoals, scope, cols);
      r.Ok? ==> Recalculated(r.value, id, homeGoals, awayGoals, scope, cols) == r
  {
    var r := Recalculated(t, id, homeGoals, awayGoals, scope, cols);
    if r.Ok? {
      var p := FindFixture(t.fixtures, id).value;
      ScoredAgain(t.fixtures, id, p, (homeGoals, awayGoals));
      RecalculatedReset(t, id, homeGoals, awayGoals, scope, cols, p);
      RecalculatedDependsOn(r.value, t, id, homeGoals, awayGoals, scope, cols, p);
    }
  }

  /** Once a fixture has a score, it is found at the same place and setting the score again changes nothing. */
  lemma ScoredAgain(fs: seq<Fixture>, id: FixtureId, p: nat, score: (int, int))
    requires p < |fs| && FindFixture(fs, id) == Some(p)
    ensures var u := fs[p := Scored(fs[p], score)];
      FindFixture(u, id) == Some(p) && u[p := Scored(u[p], score)] == u
  {
    var u := fs[p := Scored(fs[p], score)];
    FindFixtureFirst(u, id, p);
    assert u[p := Scored(u[p], score)] == u;
  }

  /** Resetting the corrected group of the saved table gives back the reset table. */
  lemma RecalculatedReset(t: Tables, id: FixtureId, homeGoals: int, awayGoals: int, scope: Scope, cols: Columns, p: nat)
    requires UniqueRecordIds(t.records) && Recalculated(t, id, homeGoals, awayGoals, scope, cols).Ok?
    requires p < |t.fixtures| && FindFixture(t.fixtures, id) == Some(p)
    ensures ResetGroup(Recalculated(t, id, homeGoals, awayGoals, scope, cols).value.records, t.fixtures[p].groupId) ==
      ResetGroup(t.records, t.fixtures[p].groupId)
  {
    var q, reset, rows := RecalculatedRows(t, id, homeGoals, awayGoals, scope, cols);
    ResetFacts(t.records, t.fixtures[p].groupId);
    ResetAfterSave(reset, rows, t.fixtures[p].groupId, cols);
  }

  /**
   * The monolith's correction saves no drawn or lost column: every record of the
   * corrected group keeps the zero the reset stored there, so any such record whose team
   * drew or lost a replayed match breaks played = won + drawn + lost.
   */
  lemma LeagueCorrectionDropsDrawsAndLosses(t: Tables, id: FixtureId, homeGoals: int, awayGoals: int)
    ensures var r := Recalculated(t, id, homeGoals, awayGoals, GroupRecords, CorrectionColumns);
      r.Ok? ==> forall i :: 0 <= i < |t.records| && t.records[i].groupId == t.fixtures[FindFixture(t.fixtures, id).value].groupId ==>
        r.value.records[i].drawn == 0 && r.value.records[i].lost == 0
  {
    if Recalculated(t, id, homeGoals, awayGoals, GroupRecords, CorrectionColumns).Ok? {
      var p, rows := RecalculatedSaves(t, id, homeGoals, awayGoals, GroupRecords, CorrectionColumns);
      var reset := ResetGroup(t.records, t.fixtures[p].groupId);
      forall i | 0 <= i < |t.records|
        ensures t.records[i].groupId == t.fixtures[p].groupId ==>
          SaveRows(reset, rows, CorrectionColumns)[i].drawn == 0 && SaveRows(reset, rows, CorrectionColumns)[i].lost == 0
      {
        var x := reset[i];
        if x.teamId in rows && FindId(rows[x.teamId], x.id).Some? {
          assert Saved(x, rows, CorrectionColumns) == Upsert(x, rows[x.teamId][FindId(rows[x.teamId], x.id).value], CorrectionColumns);
        }
      }
    }
  }
}
