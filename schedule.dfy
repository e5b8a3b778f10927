/**
 * The fixture scheduler: a fixed six-week double round robin for four teams, a
 * greedy RED/BLUE broadcast side per group, and the weekday each side plays on.
 */
module Schedule {
  import opened Wrappers
  import opened Model
  import opened Collections

  /** Weeks of the group stage. */
  const Weeks: nat := 6

  /** Teams a group needs for its schedule. */
  const GroupSize: nat := 4

  /** Fixtures one group plays: two a week. */
  const FixturesPerGroup: nat := 12

  /**
   * The schedule matrix: entry w lists the two (home, away) team indices of week w + 1.
   * The second half of the season mirrors the first with home and away swapped.
   */
  const ScheduleMatrix: seq<seq<(nat, nat)>> := [
    [(0, 3), (1, 2)],
    [(2, 0), (3, 1)],
    [(0, 1), (2, 3)],
    [(3, 0), (2, 1)],
    [(0, 2), (1, 3)],
    [(1, 0), (3, 2)]
  ]

  function Slot(w: nat, m: nat): (nat, nat)
    requires w < Weeks && m < 2
  {
    ScheduleMatrix[w][m]
  }

  /** How often team index t plays in week w (as either side). */
  function AppearancesInWeek(w: nat, t: nat): nat
    requires w < Weeks
  {
    (if Slot(w, 0).0 == t then 1 else 0) + (if Slot(w, 0).1 == t then 1 else 0)
    + (if Slot(w, 1).0 == t then 1 else 0) + (if Slot(w, 1).1 == t then 1 else 0)
  }

  /** How often the ordered pair (a, b) occurs in weeks 0 .. w - 1. */
  function PairCount(a: nat, b: nat, w: nat): nat
    requires w <= Weeks
  {
    if w == 0 then 0
    else PairCount(a, b, w - 1) + (if Slot(w - 1, 0) == (a, b) then 1 else 0) + (if Slot(w - 1, 1) == (a, b) then 1 else 0)
  }

  /** Home games of team index t in weeks 0 .. w - 1. */
  function HomeCount(t: nat, w: nat): nat
    requires w <= Weeks
  {
    if w == 0 then 0
    else HomeCount(t, w - 1) + (if Slot(w - 1, 0).0 == t then 1 else 0) + (if Slot(w - 1, 1).0 == t then 1 else 0)
  }

  /** Away games of team index t in weeks 0 .. w - 1. */
  function AwayCount(t: nat, w: nat): nat
    requires w <= Weeks
  {
    if w == 0 then 0
    else AwayCount(t, w - 1) + (if Slot(w - 1, 0).1 == t then 1 else 0) + (if Slot(w - 1, 1).1 == t then 1 else 0)
  }

  /** Every team index is a valid index into a four-team group. */
  lemma MatrixIndicesInRange()
    ensures forall w, m :: 0 <= w < Weeks && 0 <= m < 2 ==> Slot(w, m).0 < GroupSize && Slot(w, m).1 < GroupSize
  {
  }

  /** Each of the four teams plays exactly once in every week. */
  lemma MatrixOncePerWeek()
    ensures forall w, t :: 0 <= w < Weeks && 0 <= t < GroupSize ==> AppearancesInWeek(w, t) == 1
  {
  }

  /** Every ordered pair of distinct teams meets exactly once over the six weeks. */
  lemma MatrixEachPairOnce()
    ensures forall a, b :: 0 <= a < GroupSize && 0 <= b < GroupSize && a != b ==> PairCount(a, b, Weeks) == 1
    ensures forall a :: 0 <= a < GroupSize ==> PairCount(a, a, Weeks) == 0
  {
  }

  /** Each team is at home three times and away three times. */
  lemma MatrixHomeAndAway()
    ensures forall t :: 0 <= t < GroupSize ==> HomeCount(t, Weeks) == 3 && AwayCount(t, Weeks) == 3
  {
  }

  /** Week w + 3 replays week w with home and away swapped. */
  lemma MatrixSecondLegMirrors()
    ensures forall w, m :: 0 <= w < 3 && 0 <= m < 2 ==> Slot(w + 3, m) == (Slot(w, m).1, Slot(w, m).0)
  {
  }

  /**
   * The broadcast day of a week for a side: RED plays Tuesday in odd weeks and
   * Wednesday in even weeks; BLUE the other way round.
   */
  function CalculateMatchDay(week: nat, side: Side): (d: Weekday)
    ensures side == Red ==> (d == Tuesday <==> week % 2 == 1)
    ensures side == Blue ==> (d == Tuesday <==> week % 2 == 0)
  {
    var isRedTuesday := week % 2 != 0;
    if side == Red then (if isRedTuesday then Tuesday else Wednesday)
    else (if isRedTuesday then Wednesday else Tuesday)
  }

  /** RED and BLUE groups never play on the same day of a week. */
  lemma SidesNeverShareADay(week: nat)
    ensures CalculateMatchDay(week, Red) != CalculateMatchDay(week, Blue)
  {
  }

  /** A group's side, RED when none was assigned (`$groupSides[$id] ?? 'RED'`). */
  function SideOf(sides: map<GroupId, Side>, g: GroupId): Side
  {
    if g in sides then sides[g] else Red
  }

  /** The team ids of group g's records, in table order (`pluck('team_id')`). */
  function TeamIdsOf(records: seq<Standing>, g: GroupId): (ids: seq<TeamId>)
    ensures |ids| == |WithKey(records, GroupOf, g)|
  {
    TeamIds(WithKey(records, GroupOf, g))
  }

  /** The fixture in slot m of week w + 1 of a group, given its id. */
  function ScheduledFixture(id: FixtureId, g: GroupId, teamIds: seq<TeamId>, side: Side, w: nat, m: nat): Fixture
    requires w < Weeks && m < 2 && |teamIds| >= GroupSize
  {
    MatrixIndicesInRange();
    Fixture(id, g, w + 1, CalculateMatchDay(w + 1, side),
      teamIds[Slot(w, m).0], teamIds[Slot(w, m).1], 0, 0, false)
  }

  /** The twelve fixtures of one group, numbered from `base`, week by week. */
  function GroupSchedule(base: nat, g: GroupId, teamIds: seq<TeamId>, side: Side): (fs: seq<Fixture>)
    requires |teamIds| >= GroupSize
    ensures |fs| == FixturesPerGroup
  {
    seq(FixturesPerGroup, j requires 0 <= j < FixturesPerGroup => ScheduledFixture(base + j, g, teamIds, side, j / 2, j % 2))
  }

  /**
   * A group's schedule: weeks 1 to 6, two fixtures a week on the week's one match day,
   * nothing played, and slot m of week w between the teams the matrix names.
   */
  lemma GroupScheduleShape(base: nat, g: GroupId, teamIds: seq<TeamId>, side: Side)
    requires |teamIds| >= GroupSize
    ensures var fs := GroupSchedule(base, g, teamIds, side);
      && (forall j :: 0 <= j < |fs| ==> fs[j].groupId == g && 1 <= fs[j].week <= Weeks && !fs[j].played)
      && (forall j :: 0 <= j < |fs| ==> fs[j].week == j / 2 + 1 && fs[j].id == base + j)
      && (forall j, l :: 0 <= j < |fs| && 0 <= l < |fs| && fs[j].week == fs[l].week ==> fs[j].matchDay == fs[l].matchDay)
      && (forall j :: 0 <= j < |fs| ==> fs[j].home == teamIds[Slot(j / 2, j % 2).0] && fs[j].away == teamIds[Slot(j / 2, j % 2).1])
  {
    MatrixIndicesInRange();
  }

  /** The first four team ids are different teams. */
  predicate DistinctFour(teamIds: seq<TeamId>)
    requires |teamIds| >= GroupSize
  {
    forall a, b :: 0 <= a < b < GroupSize ==> teamIds[a] != teamIds[b]
  }

  /** No team plays itself, and the two fixtures of a week have four different teams. */
  lemma GroupScheduleWeeksDisjoint(base: nat, g: GroupId, teamIds: seq<TeamId>, side: Side)
    requires |teamIds| >= GroupSize && DistinctFour(teamIds)
    ensures var fs := GroupSchedule(base, g, teamIds, side);
      && (forall j :: 0 <= j < |fs| ==> fs[j].home != fs[j].away)
      && (forall j, l :: 0 <= j < |fs| && 0 <= l < |fs| && j != l && fs[j].week == fs[l].week ==>
            fs[j].home != fs[l].home && fs[j].home != fs[l].away && fs[j].away != fs[l].home && fs[j].away != fs[l].away)
  {
    var fs := GroupSchedule(base, g, teamIds, side);
    GroupScheduleShape(base, g, teamIds, side);
    forall j | 0 <= j < |fs| ensures fs[j].home != fs[j].away {
      MatrixIndicesInRange();
    }
    forall j, l | 0 <= j < |fs| && 0 <= l < |fs| && j != l && fs[j].week == fs[l].week
      ensures fs[j].home != fs[l].home && fs[j].home != fs[l].away && fs[j].away != fs[l].home && fs[j].away != fs[l].away
    {
      var w := j / 2;
      assert l / 2 == w;
      assert {j % 2, l % 2} == {0, 1};
      MatrixIndicesInRange();
    }
  }

  /** The position in a group's schedule of the match of team index a at home to b. */
  function PairIndex(a: nat, b: nat): nat
  {
    if a == 0 && b == 3 then 0 else if a == 1 && b == 2 then 1
    else if a == 2 && b == 0 then 2 else if a == 3 && b == 1 then 3
    else if a == 0 && b == 1 then 4 else if a == 2 && b == 3 then 5
    else if a == 3 && b == 0 then 6 else if a == 2 && b == 1 then 7
    else if a == 0 && b == 2 then 8 else if a == 1 && b == 3 then 9
    else if a == 1 && b == 0 then 10 else if a == 3 && b == 2 then 11
    else if a == 3 && b == 3 then 12 else 12
    // the last line keeps a == b and out-of-range pairs outside the schedule
  }

  /** PairIndex finds every slot of the matrix, and each distinct pair has a slot. */
  lemma PairIndexInverts()
    ensures forall j :: 0 <= j < FixturesPerGroup ==> PairIndex(Slot(j / 2, j % 2).0, Slot(j / 2, j % 2).1) == j
    ensures forall a, b :: 0 <= a < GroupSize && 0 <= b < GroupSize && a != b ==>
      PairIndex(a, b) < FixturesPerGroup && Slot(PairIndex(a, b) / 2, PairIndex(a, b) % 2) == (a, b)
  {
  }

  /** Some fixture has `home` at home to `away`. */
  predicate Meets(fs: seq<Fixture>, home: TeamId, away: TeamId)
  {
    exists j :: 0 <= j < |fs| && fs[j].home == home && fs[j].away == away
  }

  /** Every ordered pair of different teams among the first four has a fixture, a at home to b. */
  lemma GroupScheduleEachPair(base: nat, g: GroupId, teamIds: seq<TeamId>, side: Side)
    requires |teamIds| >= GroupSize
    ensures forall a, b :: 0 <= a < GroupSize && 0 <= b < GroupSize && a != b ==>
      Meets(GroupSchedule(base, g, teamIds, side), teamIds[a], teamIds[b])
  {
    var fs := GroupSchedule(base, g, teamIds, side);
    PairIndexInverts();
    forall a: int, b: int | 0 <= a < GroupSize && 0 <= b < GroupSize && a != b
      ensures Meets(fs, teamIds[a], teamIds[b])
    {
      var j := PairIndex(a, b);
      assert fs[j] == ScheduledFixture(base + j, g, teamIds, side, j / 2, j % 2);
      assert fs[j].home == teamIds[a] && fs[j].away == teamIds[b];
    }
  }

  /** With four different teams, no pairing (home, away) occurs twice in a group's schedule. */
  lemma GroupSchedulePairsOnce(base: nat, g: GroupId, teamIds: seq<TeamId>, side: Side)
    requires |teamIds| >= GroupSize && DistinctFour(teamIds)
    ensures var fs := GroupSchedule(base, g, teamIds, side);
      forall j, l :: 0 <= j < |fs| && 0 <= l < |fs| && fs[j].home == fs[l].home && fs[j].away == fs[l].away ==> j == l
  {
    var fs := GroupSchedule(base, g, teamIds, side);
    GroupScheduleShape(base, g, teamIds, side);
    MatrixIndicesInRange();
    PairIndexInverts();
    forall j, l | 0 <= j < |fs| && 0 <= l < |fs| && fs[j].home == fs[l].home && fs[j].away == fs[l].away
      ensures j == l
    {
      assert Slot(j / 2, j % 2) == Slot(l / 2, l % 2);
    }
  }

  /** Every group has the four teams its schedule indexes. */
  predicate AllFull(groups: seq<Group>, records: seq<Standing>)
  {
    forall k :: 0 <= k < |groups| ==> |TeamIdsOf(records, groups[k].id)| >= GroupSize
  }

  /** The fixtures of all groups, group after group, numbered by position. */
  function AllSchedules(groups: seq<Group>, records: seq<Standing>, sides: map<GroupId, Side>): (fs: seq<Fixture>)
    requires AllFull(groups, records)
    ensures |fs| == FixturesPerGroup * |groups|
  {
    if groups == [] then []
    else
      var init := groups[..|groups| - 1];
      var g := groups[|groups| - 1].id;
      assert AllFull(init, records) by {
        assert forall k :: 0 <= k < |init| ==> init[k] == groups[k];
      }
      AllSchedules(init, records, sides) + GroupSchedule(FixturesPerGroup * |init|, g, TeamIdsOf(records, g), SideOf(sides, g))
  }

  /** The fixtures of the first n groups open the fixtures of all groups. */
  lemma {:induction false} AllSchedulesPrefix(groups: seq<Group>, records: seq<Standing>, sides: map<GroupId, Side>, n: nat)
    requires AllFull(groups, records) && n <= |groups|
    ensures AllFull(groups[..n], records)
    ensures forall i :: 0 <= i < FixturesPerGroup * n ==>
      AllSchedules(groups, records, sides)[i] == AllSchedules(groups[..n], records, sides)[i]
    decreases |groups|
  {
    if n == |groups| {
      assert groups[..n] == groups;
    } else {
      var init := groups[..|groups| - 1];
      assert AllFull(init, records) by {
        assert forall j :: 0 <= j < |init| ==> init[j] == groups[j];
      }
      assert init[..n] == groups[..n];
      AllSchedulesPrefix(init, records, sides, n);
      var g := groups[|groups| - 1].id;
      assert AllSchedules(groups, records, sides) == AllSchedules(init, records, sides)
        + GroupSchedule(FixturesPerGroup * |init|, g, TeamIdsOf(records, g), SideOf(sides, g));
    }
  }

  /** Block k of the fixtures (fixtures 12k to 12k + 11) is group k's schedule. */
  lemma AllSchedulesBlock(groups: seq<Group>, records: seq<Standing>, sides: map<GroupId, Side>, k: nat)
    requires AllFull(groups, records) && k < |groups|
    ensures forall j :: 0 <= j < FixturesPerGroup ==>
      AllSchedules(groups, records, sides)[FixturesPerGroup * k + j]
        == GroupSchedule(FixturesPerGroup * k, groups[k].id, TeamIdsOf(records, groups[k].id), SideOf(sides, groups[k].id))[j]
  {
    AllSchedulesPrefix(groups, records, sides, k + 1);
    AllSchedulesPrefix(groups, records, sides, k);
    AllSchedulesSnoc(groups, k, records, sides);
    var all := AllSchedules(groups, records, sides);
    var pre := AllSchedules(groups[..k + 1], records, sides);
    var before := AllSchedules(groups[..k], records, sides);
    var g := groups[k].id;
    var block := GroupSchedule(FixturesPerGroup * k, g, TeamIdsOf(records, g), SideOf(sides, g));
    assert |before| == FixturesPerGroup * k;
    assert pre == before + block;
    forall j | 0 <= j < FixturesPerGroup ensures all[FixturesPerGroup * k + j] == block[j] {
      assert all[FixturesPerGroup * k + j] == pre[FixturesPerGroup * k + j];
    }
  }

  datatype ScheduleError = NoGroups | GroupTooSmall(group: GroupId)

  /**
   * `FixtureGenerator::generate`: twelve fixtures per group, group by group, from the
   * schedule matrix and the group's side, the sides assigned over all group records
   * `members`. A group with fewer than four records makes the matrix index a missing
   * team (an undefined-key error), which aborts generation.
   */
  method Generate(groups: seq<Group>, records: seq<Standing>, members: seq<Membership>)
    returns (r: Result<seq<Fixture>, ScheduleError>)
    ensures r.Err? <==> !AllFull(groups, records)
    ensures r.Err? ==> exists k :: 0 <= k < |groups| && |TeamIdsOf(records, groups[k].id)| < GroupSize && r.error == GroupTooSmall(groups[k].id)
    ensures r.Ok? ==> AllFull(groups, records) && r.value == AllSchedules(groups, records, TvSides(members))
  {
    var sides, _, _ := AssignTvRightsSides(members);
    var fixtures: seq<Fixture> := [];
    for k := 0 to |groups|
      invariant AllFull(groups[..k], records)
      invariant fixtures == AllSchedules(groups[..k], records, sides)
    {
      var group := groups[k];
      var teamIds := TeamIdsOf(records, group.id);
      var side := SideOf(sides, group.id);
      if |teamIds| < GroupSize {
        return Err(GroupTooSmall(group.id));
      }
      AllSchedulesSnoc(groups, k, records, sides);
      var groupFixtures := ScheduleGroup(|fixtures|, group.id, teamIds, side);
      fixtures := fixtures + groupFixtures;
    }
    assert groups[..|groups|] == groups;
    return Ok(fixtures);
  }

  /** One more full group extends the schedule by that group's block. */
  lemma AllSchedulesSnoc(groups: seq<Group>, k: nat, records: seq<Standing>, sides: map<GroupId, Side>)
    requires k < |groups| && AllFull(groups[..k], records)
    requires |TeamIdsOf(records, groups[k].id)| >= GroupSize
    ensures AllFull(groups[..k + 1], records)
    ensures AllSchedules(groups[..k + 1], records, sides) ==
      AllSchedules(groups[..k], records, sides)
        + GroupSchedule(|AllSchedules(groups[..k], records, sides)|, groups[k].id, TeamIdsOf(records, groups[k].id), SideOf(sides, groups[k].id))
  {
    var next := groups[..k + 1];
    assert next[..k] == groups[..k] && next[k] == groups[k];
    assert AllFull(next, records) by {
      assert forall j :: 0 <= j < k ==> next[j] == groups[..k][j];
    }
  }

  /**
   * `generateFixtures` (the setup service's and the monolith's alike): no groups is an
   * error; otherwise the fixture table is emptied and refilled with the generated
   * fixtures inside one transaction, so a failed generation leaves the old table.
   */
  method GenerateFixtures(groups: seq<Group>, records: seq<Standing>, members: seq<Membership>, current: seq<Fixture>)
    returns (r: Result<seq<Fixture>, ScheduleError>, table: seq<Fixture>)
    ensures groups == [] ==> r == Err(NoGroups)
    ensures groups != [] ==> (r.Err? <==> !AllFull(groups, records))
    ensures r.Ok? ==> table == r.value && r.value == AllSchedules(groups, records, TvSides(members))
    ensures r.Err? ==> table == current
  {
    if groups == [] {
      return Err(NoGroups), current;
    }
    r := Generate(groups, records, members);
    table := if r.Ok? then r.value else current;
  }

  /** The week and match loops of `generate` for one group, numbering fixtures from `base`. */
  method ScheduleGroup(base: nat, g: GroupId, teamIds: seq<TeamId>, side: Side) returns (fixtures: seq<Fixture>)
    requires |teamIds| >= GroupSize
    ensures fixtures == GroupSchedule(base, g, teamIds, side)
  {
    fixtures := [];
    MatrixIndicesInRange();
    for w := 0 to Weeks
      invariant |fixtures| == 2 * w
      invariant forall j :: 0 <= j < 2 * w ==>
        fixtures[j] == ScheduledFixture(base + j, g, teamIds, side, j / 2, j % 2)
    {
      var matchDay := CalculateMatchDay(w + 1, side);
      for m := 0 to 2
        invariant |fixtures| == 2 * w + m
        invariant forall j :: 0 <= j < 2 * w + m ==>
          fixtures[j] == ScheduledFixture(base + j, g, teamIds, side, j / 2, j % 2)
      {
        var slot := ScheduleMatrix[w][m];
        assert (2 * w + m) / 2 == w && (2 * w + m) % 2 == m;
        fixtures := fixtures + [Fixture(base + |fixtures|, g, w + 1, matchDay, teamIds[slot.0], teamIds[slot.1], 0, 0, false)];
      }
    }
  }

  /** One group_teams record as the side assignment sees it: its group, and its team's country and pot. */
  datatype Membership = Membership(groupId: GroupId, country: string, pot: int)

  function MemberCountry(x: Membership): string { x.country }

  function MemberPot(x: Membership): int { x.pot }

  /** The groups the records belong to. */
  function GroupIds(s: seq<Membership>): set<GroupId>
  {
    set i | 0 <= i < |s| :: s[i].groupId
  }

  /** Each bucket sorted by pot (stable). */
  function SortEachByPot(bs: seq<seq<Membership>>): (r: seq<seq<Membership>>)
    ensures |r| == |bs|
    ensures forall i :: 0 <= i < |bs| ==> r[i] == SortByKey(bs[i], MemberPot)
  {
    if bs == [] then [] else [SortByKey(bs[0], MemberPot)] + SortEachByPot(bs[1..])
  }

  /**
   * The order in which the side assignment visits the records: grouped by country,
   * largest country first (ties in order of first appearance), each country's records by pot.
   */
  function TvOrder(members: seq<Membership>): seq<seq<Membership>>
  {
    SortEachByPot(SortBySizeDesc(GroupBy(members, MemberCountry)))
  }

  /** The side map and the two counters. */
  datatype TvState = TvState(sides: map<GroupId, Side>, red: nat, blue: nat)

  /** The sides the assignment gives over a list of group records. */
  function TvSides(members: seq<Membership>): map<GroupId, Side>
  {
    AssignAll(TvState(map[], 0, 0), TvOrder(members)).sides
  }

  /** Number of groups assigned side s. */
  function CountSide(sides: map<GroupId, Side>, s: Side): nat
  {
    |set g | g in sides && sides[g] == s|
  }

  /** The counters agree with the map. */
  predicate Counted(st: TvState)
  {
    st.red == CountSide(st.sides, Red) && st.blue == CountSide(st.sides, Blue)
  }

  /** Giving a new group a side adds one to that side's count and leaves the other. */
  lemma CountSideAdd(sides: map<GroupId, Side>, g: GroupId, s: Side)
    requires g !in sides
    ensures CountSide(sides[g := s], s) == CountSide(sides, s) + 1
    ensures forall o :: o != s ==> CountSide(sides[g := s], o) == CountSide(sides, o)
  {
    var m := sides[g := s];
    assert (set x | x in m && m[x] == s) == (set x | x in sides && sides[x] == s) + {g};
    forall o | o != s ensures CountSide(m, o) == CountSide(sides, o) {
      assert (set x | x in m && m[x] == o) == (set x | x in sides && sides[x] == o);
    }
  }

  /**
   * The side a group without one receives from record `index`: at an even position the
   * side with fewer groups (RED on a tie), at an odd position the opposite of the side of
   * the previous record's group.
   */
  function NewSide(st: TvState, records: seq<Membership>, index: nat): Side
    requires index < |records|
    requires index > 0 ==> records[index - 1].groupId in st.sides
  {
    if index % 2 == 0 then (if st.red <= st.blue then Red else Blue)
    else (if st.sides[records[index - 1].groupId] == Red then Blue else Red)
  }

  /** The side record `index` of a country's bucket receives, if its group has none yet. */
  function AssignRecord(st: TvState, records: seq<Membership>, index: nat): (r: TvState)
    requires index < |records|
    requires index > 0 ==> records[index - 1].groupId in st.sides
    ensures r.sides.Keys == st.sides.Keys + {records[index].groupId}
    ensures forall g :: g in st.sides ==> r.sides[g] == st.sides[g]
    ensures Counted(st) ==> Counted(r)
  {
    var g := records[index].groupId;
    if g in st.sides then st
    else
      var side := NewSide(st, records, index);
      CountSideAdd(st.sides, g, side);
      TvState(st.sides[g := side],
        if side == Red then st.red + 1 else st.red,
        if side == Blue then st.blue + 1 else st.blue)
  }

  /** A record whose group has a side changes nothing; otherwise its group gets the new side and that side's counter grows by one. */
  lemma AssignRecordCases(st: TvState, records: seq<Membership>, index: nat)
    requires index < |records|
    requires index > 0 ==> records[index - 1].groupId in st.sides
    ensures records[index].groupId in st.sides ==> AssignRecord(st, records, index) == st
    ensures records[index].groupId !in st.sides ==>
      var side := NewSide(st, records, index);
      AssignRecord(st, records, index) ==
        TvState(st.sides[records[index].groupId := side],
          if side == Red then st.red + 1 else st.red,
          if side == Blue then st.blue + 1 else st.blue)
  {
  }

  /** The state after the first n records of one bucket. */
  function AssignBucket(st: TvState, records: seq<Membership>, n: nat): (r: TvState)
    requires n <= |records|
    ensures r.sides.Keys == st.sides.Keys + GroupIds(records[..n])
    ensures forall g :: g in st.sides ==> r.sides[g] == st.sides[g]
    ensures Counted(st) ==> Counted(r)
  {
    if n == 0 then st
    else
      var prev := AssignBucket(st, records, n - 1);
      GroupIdsPrefix(records, n);
      AssignRecord(prev, records, n - 1)
  }

  /** One more record of a bucket: the side of that record on top of the state before it. */
  lemma AssignBucketStep(st: TvState, records: seq<Membership>, n: nat)
    requires n < |records|
    ensures n > 0 ==> records[n - 1].groupId in AssignBucket(st, records, n).sides
    ensures AssignBucket(st, records, n + 1) == AssignRecord(AssignBucket(st, records, n), records, n)
  {
    assert n > 0 ==> records[n - 1].groupId in GroupIds(records[..n]);
  }

  /** The groups of a prefix one record longer: one more group at most, and the record before it was already counted. */
  lemma GroupIdsPrefix(records: seq<Membership>, n: nat)
    requires 0 < n <= |records|
    ensures GroupIds(records[..n]) == GroupIds(records[..n - 1]) + {records[n - 1].groupId}
    ensures n > 1 ==> records[n - 2].groupId in GroupIds(records[..n - 1])
  {
    assert records[..n] == records[..n - 1] + [records[n - 1]];
    GroupIdsAppend(records[..n - 1], [records[n - 1]]);
    assert GroupIds([records[n - 1]]) == {records[n - 1].groupId} by {
      assert [records[n - 1]][0] == records[n - 1];
    }
    if n > 1 {
      assert records[..n - 1][n - 2] == records[n - 2];
    }
  }

  /** The state after every bucket, in order. */
  function AssignAll(st: TvState, buckets: seq<seq<Membership>>): (r: TvState)
    ensures r.sides.Keys == st.sides.Keys + GroupIds(Flatten(buckets))
    ensures forall g :: g in st.sides ==> r.sides[g] == st.sides[g]
    ensures Counted(st) ==> Counted(r)
  {
    if buckets == [] then st
    else
      var init := buckets[..|buckets| - 1];
      var last := buckets[|buckets| - 1];
      var prev := AssignAll(st, init);
      assert buckets == init + [last];
      FlattenAppend(init, last);
      GroupIdsAppend(Flatten(init), last);
      assert last[..|last|] == last;
      AssignBucket(prev, last, |last|)
  }

  lemma GroupIdsAppend(a: seq<Membership>, b: seq<Membership>)
    ensures GroupIds(a + b) == GroupIds(a) + GroupIds(b)
  {
    forall g | g in GroupIds(a) ensures g in GroupIds(a + b) {
      var i :| 0 <= i < |a| && a[i].groupId == g;
      assert (a + b)[i].groupId == g;
    }
    forall g | g in GroupIds(a + b) ensures g in GroupIds(a) + GroupIds(b) {
      var i :| 0 <= i < |a + b| && (a + b)[i].groupId == g;
      if i >= |a| {
        assert b[i - |a|].groupId == g;
      }
    }
    forall g | g in GroupIds(b) ensures g in GroupIds(a + b) {
      var i :| 0 <= i < |b| && b[i].groupId == g;
      assert (a + b)[|a| + i].groupId == g;
    }
  }

  /** Two lists with the same elements mention the same groups. */
  lemma GroupIdsOfPermutation(a: seq<Membership>, b: seq<Membership>)
    requires multiset(a) == multiset(b)
    ensures GroupIds(a) == GroupIds(b)
  {
    forall g | g in GroupIds(a) ensures g in GroupIds(b) {
      var i :| 0 <= i < |a| && a[i].groupId == g;
      assert a[i] in multiset(b);
      var j :| 0 <= j < |b| && b[j] == a[i];
    }
    forall g | g in GroupIds(b) ensures g in GroupIds(a) {
      var i :| 0 <= i < |b| && b[i].groupId == g;
      assert b[i] in multiset(a);
      var j :| 0 <= j < |a| && a[j] == b[i];
    }
  }

  lemma {:induction false} SortEachByPotMultiset(bs: seq<seq<Membership>>)
    ensures multiset(Flatten(SortEachByPot(bs))) == multiset(Flatten(bs))
  {
    if bs != [] {
      SortEachByPotMultiset(bs[1..]);
      assert SortEachByPot(bs)[1..] == SortEachByPot(bs[1..]);
    }
  }

  /** The visiting order holds exactly the input records. */
  lemma TvOrderMultiset(members: seq<Membership>)
    ensures multiset(Flatten(TvOrder(members))) == multiset(members)
  {
    var grouped := GroupBy(members, MemberCountry);
    GroupByMultiset(members, MemberCountry);
    SortEachByPotMultiset(SortBySizeDesc(grouped));
  }

  /**
   * `assignTvRightsSides`: visits the records country by country (largest first,
   * each by pot); a record whose group has no side yet gives it one: at an even
   * position the side with fewer groups (RED on a tie), at an odd position the
   * opposite of the previous record's group. A side, once given, is never changed.
   */
  method AssignTvRightsSides(members: seq<Membership>) returns (sides: map<GroupId, Side>, redCount: nat, blueCount: nat)
    ensures sides == TvSides(members)
    ensures sides.Keys == GroupIds(members)
    ensures redCount == CountSide(sides, Red) && blueCount == CountSide(sides, Blue)
  {
    sides, redCount, blueCount := AssignCountries(map[], 0, 0, TvOrder(members));
    TvSidesCover(members);
  }

  /** The outer loop of the side assignment: the countries in order. */
  method AssignCountries(sides0: map<GroupId, Side>, red0: nat, blue0: nat, buckets: seq<seq<Membership>>)
    returns (sides: map<GroupId, Side>, redCount: nat, blueCount: nat)
    ensures TvState(sides, redCount, blueCount) == AssignAll(TvState(sides0, red0, blue0), buckets)
  {
    ghost var init := TvState(sides0, red0, blue0);
    sides, redCount, blueCount := sides0, red0, blue0;
    for b := 0 to |buckets|
      invariant TvState(sides, redCount, blueCount) == AssignAll(init, buckets[..b])
    {
      assert buckets[..b + 1][..b] == buckets[..b];
      sides, redCount, blueCount := AssignCountry(sides, redCount, blueCount, buckets[b]);
    }
    assert buckets[..|buckets|] == buckets;
  }

  /** Every group with a record gets a side, no other group does, and the counters agree with the map. */
  lemma TvSidesCover(members: seq<Membership>)
    ensures var st := AssignAll(TvState(map[], 0, 0), TvOrder(members));
      st.sides == TvSides(members) && st.sides.Keys == GroupIds(members) && Counted(st)
  {
    TvSidesKeys(members);
    TvSidesCounted(members);
  }

  /** The groups given a side are exactly the groups of the records. */
  lemma TvSidesKeys(members: seq<Membership>)
    ensures TvSides(members).Keys == GroupIds(members)
  {
    var order := TvOrder(members);
    assert TvSides(members).Keys == GroupIds(Flatten(order));
    TvOrderMultiset(members);
    GroupIdsOfPermutation(Flatten(order), members);
  }

  /** Starting from no sides and zero counters, the counters end equal to the number of groups on each side. */
  lemma TvSidesCounted(members: seq<Membership>)
    ensures Counted(AssignAll(TvState(map[], 0, 0), TvOrder(members)))
  {
    var start := TvState(map[], 0, 0);
    assert CountSide(map[], Red) == 0 && CountSide(map[], Blue) == 0;
    assert Counted(start);
  }

  /** The inner loop of the side assignment: one country's records, in pot order. */
  method AssignCountry(sides0: map<GroupId, Side>, red0: nat, blue0: nat, records: seq<Membership>)
    returns (sides: map<GroupId, Side>, redCount: nat, blueCount: nat)
    ensures TvState(sides, redCount, blueCount) == AssignBucket(TvState(sides0, red0, blue0), records, |records|)
  {
    ghost var start := TvState(sides0, red0, blue0);
    sides, redCount, blueCount := sides0, red0, blue0;
    for index := 0 to |records|
      invariant TvState(sides, redCount, blueCount) == AssignBucket(start, records, index)
    {
      var groupId := records[index].groupId;
      ghost var current := TvState(sides, redCount, blueCount);
      AssignBucketStep(start, records, index);
      AssignRecordCases(current, records, index);
      if groupId !in sides {
        var side;
        if index % 2 == 0 {
          side := if redCount <= blueCount then Red else Blue;
        } else {
          var prevGroupId := records[index - 1].groupId;
          side := if sides[prevGroupId] == Red then Blue else Red;
        }
        assert side == NewSide(current, records, index);
        sides := sides[groupId := side];
        if side == Red {
          redCount := redCount + 1;
        } else {
          blueCount := blueCount + 1;
        }
      }
    }
  }
}
