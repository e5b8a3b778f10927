/**
 * The constrained group draw: validation of the team and group counts, one pot-1
 * seed per group, then pots 2 to 4 country by country (largest country first), each
 * team into a randomly chosen group that still has room and holds no team of its
 * pot or its country, restarting the whole draw on a dead end.
 *
 * Groups are addressed by position in the list ordered by name. The source keys the draw
 * by group name, so positions stand for names only while the names are distinct, as the
 * setup creates them. `shuffle` and `array_rand` are nondeterministic choices, so every
 * property holds for every draw.
 */
module Draw {
  import opened Wrappers
  import opened Model
  import opened Collections
  import opened Standings

  /** Teams in a full group. */
  const TeamsPerGroup: nat := 4

  /** Attempts before the draw gives up. */
  const MaxAttempts: nat := 100

  datatype DrawError =
    | NoGroups
    | WrongTeamCount(expected: nat, actual: nat)
    | TooManyFromCountry(country: string, count: nat)
    | PotMissing(pot: int)
    | NotEnoughSeeds
    | NoValidGroup(team: TeamId)
    | Exhausted(attempts: nat, last: DrawError)

  /** The member lists of the groups, by group position. */
  type Assignments = seq<seq<TeamId>>

  function Ids(ts: seq<Team>): (ids: seq<TeamId>)
    ensures |ids| == |ts|
    ensures forall i {:trigger ids[i]} :: 0 <= i < |ts| ==> ids[i] == ts[i].id
  {
    if ts == [] then [] else [ts[0].id] + Ids(ts[1..])
  }

  lemma IdsAppend(a: seq<Team>, b: seq<Team>)
    ensures Ids(a + b) == Ids(a) + Ids(b)
  {
    assert Ids(a + b) == Ids(a) + Ids(b);
  }

  lemma IdsSnoc(teams: seq<Team>, i: nat)
    requires i < |teams|
    ensures multiset(Ids(teams[..i + 1])) == multiset(Ids(teams[..i])) + multiset{teams[i].id}
  {
    IdsAppend(teams[..i], [teams[i]]);
    assert teams[..i + 1] == teams[..i] + [teams[i]];
  }

  /** Reordering teams reorders their ids. */
  lemma {:induction false} IdsPermutation(a: seq<Team>, b: seq<Team>)
    requires multiset(a) == multiset(b)
    ensures multiset(Ids(a)) == multiset(Ids(b))
    decreases |a|
  {
    if a == [] {
      assert |b| == |multiset(b)| == 0;
    } else {
      var x := a[0];
      assert x in multiset(b);
      var j :| 0 <= j < |b| && b[j] == x;
      var rest := b[..j] + b[j + 1..];
      FirstRemoved(a, b, j);
      IdsPermutation(a[1..], rest);
      IdsRemoveAt(b, j);
      IdsCons(a);
    }
  }

  /** The ids of a nonempty list: the first team's id and the ids of the rest. */
  lemma IdsCons(a: seq<Team>)
    requires a != []
    ensures multiset(Ids(a)) == multiset(Ids(a[1..])) + multiset{a[0].id}
  {
    var ia := Ids(a);
    RemoveAt(ia, 0);
    assert ia[..0] + ia[1..] == Ids(a[1..]);
  }

  /** Taking out the team at j takes out its id. */
  lemma IdsRemoveAt(b: seq<Team>, j: nat)
    requires j < |b|
    ensures multiset(Ids(b)) == multiset(Ids(b[..j] + b[j + 1..])) + multiset{b[j].id}
  {
    var rest := b[..j] + b[j + 1..];
    var ib := Ids(b);
    var ir := Ids(rest);
    forall k | 0 <= k < |ir| ensures ir[k] == (ib[..j] + ib[j + 1..])[k] {
      if k < j {
        assert ir[k] == rest[k].id == b[k].id;
      } else {
        assert ir[k] == rest[k].id == b[k + 1].id;
      }
    }
    assert ir == ib[..j] + ib[j + 1..];
    RemoveAt(ib, j);
  }

  /** `$allTeams->firstWhere('id', id)`. */
  function FindTeam(all: seq<Team>, id: TeamId): (r: Option<Team>)
    ensures r.Some? ==> r.value in all && r.value.id == id
    ensures r.None? <==> forall i :: 0 <= i < |all| ==> all[i].id != id
  {
    if all == [] then None
    else if all[0].id == id then Some(all[0])
    else
      var r := FindTeam(all[1..], id);
      assert forall i :: 1 <= i < |all| ==> all[i] == all[1..][i - 1];
      r
  }

  /** Team ids are primary keys. */
  predicate UniqueIds(all: seq<Team>)
  {
    forall i, j :: 0 <= i < j < |all| ==> all[i].id != all[j].id
  }

  /** With unique ids the lookup finds the team itself. */
  lemma {:induction false} FindTeamUnique(all: seq<Team>, t: Team)
    requires UniqueIds(all) && t in all
    ensures FindTeam(all, t.id) == Some(t)
  {
    if all[0] != t {
      assert forall i, j :: 0 <= i < j < |all[1..]| ==> all[1..][i] == all[i + 1] && all[1..][j] == all[j + 1];
      FindTeamUnique(all[1..], t);
    }
  }

  /** A member blocks a team when the member is a known team of the same pot or the same country. */
  predicate Clashes(all: seq<Team>, member: TeamId, team: Team)
  {
    var e := FindTeam(all, member);
    e.Some? && (e.value.pot == team.pot || e.value.country == team.country)
  }

  /** A group can take the team: it has room and no member blocks the team. */
  predicate Admits(all: seq<Team>, members: seq<TeamId>, team: Team)
  {
    |members| < TeamsPerGroup && forall i :: 0 <= i < |members| ==> !Clashes(all, members[i], team)
  }

  /** The positions among the first n groups that admit the team, in group order. */
  function ValidGroups(all: seq<Team>, assign: Assignments, team: Team, n: nat): (vs: seq<nat>)
    requires n <= |assign|
    ensures forall i :: 0 <= i < |vs| ==> vs[i] < n && Admits(all, assign[vs[i]], team)
    ensures forall k :: 0 <= k < n && Admits(all, assign[k], team) ==> k in vs
    ensures forall i, j :: 0 <= i < j < |vs| ==> vs[i] < vs[j]
  {
    if n == 0 then []
    else
      var vs := ValidGroups(all, assign, team, n - 1);
      if Admits(all, assign[n - 1], team) then vs + [n - 1] else vs
  }

  /** A group is exactly valid when it is in the list. */
  lemma ValidGroupsExactly(all: seq<Team>, assign: Assignments, team: Team, k: int)
    ensures k in ValidGroups(all, assign, team, |assign|) <==> 0 <= k < |assign| && Admits(all, assign[k], team)
  {
  }

  /**
   * `findValidGroupsForTeam`: for each group in order, skip it when full, when a member
   * shares the team's pot, or when a member shares its country; keep it otherwise.
   */
  method FindValidGroupsForTeam(team: Team, assign: Assignments, all: seq<Team>) returns (valid: seq<nat>)
    ensures valid == ValidGroups(all, assign, team, |assign|)
  {
    valid := [];
    for g := 0 to |assign|
      invariant valid == ValidGroups(all, assign, team, g)
    {
      ValidGroupsStep(all, assign, team, g);
      var admits := GroupAdmits(team, assign[g], all);
      if admits {
        valid := valid + [g];
      }
    }
  }

  /**
   * The body of `findValidGroupsForTeam`'s loop over the groups: a full group, then a
   * member of the team's pot, then a member of its country each skip the group
   * (`continue` and `continue 2`); a group that passes all three is kept.
   */
  method GroupAdmits(team: Team, members: seq<TeamId>, all: seq<Team>) returns (admits: bool)
    ensures admits == Admits(all, members, team)
  {
    if |members| >= TeamsPerGroup {
      return false;
    }
    var hasPotConflict := false;
    var i := 0;
    while i < |members| && !hasPotConflict
      invariant 0 <= i <= |members|
      invariant hasPotConflict == PotClashBefore(all, members, team, i)
    {
      var existing := FindTeam(all, members[i]);
      if existing.Some? && existing.value.pot == team.pot {
        hasPotConflict := true;
      }
      i := i + 1;
    }
    if hasPotConflict {
      RejectedByClash(all, members, team, i);
      return false;
    }
    var hasCountryConflict := false;
    i := 0;
    while i < |members| && !hasCountryConflict
      invariant 0 <= i <= |members|
      invariant hasCountryConflict == CountryClashBefore(all, members, team, i)
    {
      var existing := FindTeam(all, members[i]);
      if existing.Some? && existing.value.country == team.country {
        hasCountryConflict := true;
      }
      i := i + 1;
    }
    if hasCountryConflict {
      RejectedByClash(all, members, team, i);
      return false;
    }
    AdmittedWithoutClash(all, members, team);
    return true;
  }

  /** Some of the first i members is of the team's pot. */
  predicate PotClashBefore(all: seq<Team>, members: seq<TeamId>, team: Team, i: nat)
    requires i <= |members|
  {
    i > 0 && (PotClashBefore(all, members, team, i - 1) || PotClash(all, members[i - 1], team))
  }

  /** Some of the first i members is of the team's country. */
  predicate CountryClashBefore(all: seq<Team>, members: seq<TeamId>, team: Team, i: nat)
    requires i <= |members|
  {
    i > 0 && (CountryClashBefore(all, members, team, i - 1) || CountryClash(all, members[i - 1], team))
  }

  lemma {:induction false} PotClashBeforeExists(all: seq<Team>, members: seq<TeamId>, team: Team, i: nat)
    requires i <= |members|
    ensures PotClashBefore(all, members, team, i) <==> exists j :: 0 <= j < i && PotClash(all, members[j], team)
  {
    if i > 0 {
      PotClashBeforeExists(all, members, team, i - 1);
    }
  }

  lemma {:induction false} CountryClashBeforeExists(all: seq<Team>, members: seq<TeamId>, team: Team, i: nat)
    requires i <= |members|
    ensures CountryClashBefore(all, members, team, i) <==> exists j :: 0 <= j < i && CountryClash(all, members[j], team)
  {
    if i > 0 {
      CountryClashBeforeExists(all, members, team, i - 1);
    }
  }

  /** The list over one more group: that group is appended exactly when it admits the team. */
  lemma ValidGroupsStep(all: seq<Team>, assign: Assignments, team: Team, g: nat)
    requires g < |assign|
    ensures ValidGroups(all, assign, team, g + 1) ==
      if Admits(all, assign[g], team) then ValidGroups(all, assign, team, g) + [g] else ValidGroups(all, assign, team, g)
  {
  }

  /** A member of the same pot or country rules a group out. */
  lemma RejectedByClash(all: seq<Team>, members: seq<TeamId>, team: Team, i: nat)
    requires i <= |members|
    requires PotClashBefore(all, members, team, i) || CountryClashBefore(all, members, team, i)
    ensures !Admits(all, members, team)
  {
    if PotClashBefore(all, members, team, i) {
      PotClashBeforeExists(all, members, team, i);
      var j :| 0 <= j < i && PotClash(all, members[j], team);
      assert Clashes(all, members[j], team);
    } else {
      CountryClashBeforeExists(all, members, team, i);
      var j :| 0 <= j < i && CountryClash(all, members[j], team);
      assert Clashes(all, members[j], team);
    }
  }

  /** A group with room and no member of the same pot or country admits the team. */
  lemma AdmittedWithoutClash(all: seq<Team>, members: seq<TeamId>, team: Team)
    requires |members| < TeamsPerGroup
    requires !PotClashBefore(all, members, team, |members|)
    requires !CountryClashBefore(all, members, team, |members|)
    ensures Admits(all, members, team)
  {
    PotClashBeforeExists(all, members, team, |members|);
    CountryClashBeforeExists(all, members, team, |members|);
    forall j | 0 <= j < |members| ensures !Clashes(all, members[j], team) {
      assert !PotClash(all, members[j], team) && !CountryClash(all, members[j], team);
    }
  }

  predicate PotClash(all: seq<Team>, member: TeamId, team: Team)
  {
    var e := FindTeam(all, member);
    e.Some? && e.value.pot == team.pot
  }

  predicate CountryClash(all: seq<Team>, member: TeamId, team: Team)
  {
    var e := FindTeam(all, member);
    e.Some? && e.value.country == team.country
  }

  /** Two members do not conflict: when both are known teams, they differ in pot and in country. */
  predicate Compatible(all: seq<Team>, a: TeamId, b: TeamId)
  {
    var ta := FindTeam(all, a);
    var tb := FindTeam(all, b);
    ta.Some? && tb.Some? ==> ta.value.pot != tb.value.pot && ta.value.country != tb.value.country
  }

  /** The membership invariant of one group: at most four members, pairwise compatible. */
  predicate GroupOk(all: seq<Team>, members: seq<TeamId>)
  {
    |members| <= TeamsPerGroup
    && forall i, j :: 0 <= i < j < |members| ==> Compatible(all, members[i], members[j])
  }

  predicate AllGroupsOk(all: seq<Team>, assign: Assignments)
  {
    forall k :: 0 <= k < |assign| ==> GroupOk(all, assign[k])
  }

  /** Placing a team in a group that admits it keeps the group's invariant. */
  lemma PlacementPreserves(all: seq<Team>, members: seq<TeamId>, team: Team)
    requires GroupOk(all, members) && Admits(all, members, team)
    requires FindTeam(all, team.id) == Some(team)
    ensures GroupOk(all, members + [team.id])
  {
    var m := members + [team.id];
    forall i, j | 0 <= i < j < |m| ensures Compatible(all, m[i], m[j]) {
      if j == |members| {
        assert !Clashes(all, members[i], team);
      } else {
        assert m[i] == members[i] && m[j] == members[j];
      }
    }
  }

  /** Every team of the list is the team its id names. */
  predicate Known(all: seq<Team>, teams: seq<Team>)
  {
    forall i :: 0 <= i < |teams| ==> FindTeam(all, teams[i].id) == Some(teams[i])
  }

  /** Every group's new member list extends its old one. */
  predicate Extends(before: Assignments, after: Assignments)
  {
    |after| == |before| && forall k :: 0 <= k < |before| ==> before[k] <= after[k]
  }

  lemma ExtendsTransitive(a: Assignments, b: Assignments, c: Assignments)
    requires Extends(a, b) && Extends(b, c)
    ensures Extends(a, c)
  {
    forall k | 0 <= k < |a| ensures a[k] <= c[k] {
      assert a[k] == b[k][..|a[k]|] && b[k] == c[k][..|b[k]|];
      assert a[k] == c[k][..|a[k]|];
    }
  }

  /**
   * One team of `drawPotWithCountryPriority`: the valid groups are computed, none is a
   * dead end, otherwise one of them (`array_rand`) receives the team's id.
   */
  method PlaceTeam(team: Team, assign: Assignments, all: seq<Team>) returns (r: Result<Assignments, DrawError>)
    requires AllGroupsOk(all, assign) && FindTeam(all, team.id) == Some(team)
    ensures r.Err? <==> forall k :: 0 <= k < |assign| ==> !Admits(all, assign[k], team)
    ensures r.Err? ==> r.error == NoValidGroup(team.id)
    ensures r.Ok? ==> Extends(assign, r.value) && AllGroupsOk(all, r.value)
    ensures r.Ok? ==> multiset(Flatten(r.value)) == multiset(Flatten(assign)) + multiset{team.id}
    ensures r.Ok? ==> exists k :: 0 <= k < |assign| && Admits(all, assign[k], team) && r.value == assign[k := assign[k] + [team.id]]
  {
    var validGroups := FindValidGroupsForTeam(team, assign, all);
    if validGroups == [] {
      forall k | 0 <= k < |assign| ensures !Admits(all, assign[k], team) {
        ValidGroupsExactly(all, assign, team, k);
      }
      return Err(NoValidGroup(team.id));
    }
    assert validGroups[0] in validGroups;
    var selected :| selected in validGroups;
    ValidGroupsExactly(all, assign, team, selected);
    PlacementPreserves(all, assign[selected], team);
    FlattenPush(assign, selected, team.id);
    var next := assign[selected := assign[selected] + [team.id]];
    assert Extends(assign, next);
    r := Ok(next);
  }

  /** The countries of one pot in draw order: `groupBy('country')->sortByDesc(count)`. */
  function DrawOrder(teams: seq<Team>): seq<seq<Team>>
  {
    SortBySizeDesc(GroupBy(teams, CountryOf))
  }

  /** Countries come largest first, each holds one country's teams, and together they hold the pot. */
  lemma DrawOrderProperties(teams: seq<Team>)
    ensures SizesNonIncreasing(DrawOrder(teams))
    ensures multiset(Flatten(DrawOrder(teams))) == multiset(teams)
  {
    GroupByMultiset(teams, CountryOf);
  }

  lemma {:induction false} FlattenMember<T>(ss: seq<seq<T>>, c: nat, x: T)
    requires c < |ss| && x in ss[c]
    ensures x in Flatten(ss)
  {
    if c > 0 {
      FlattenMember(ss[1..], c - 1, x);
    }
  }

  /** A shuffled country of the pot holds known teams of the pot. */
  lemma ShuffledKnown(all: seq<Team>, teams: seq<Team>, order: seq<seq<Team>>, c: nat, shuffled: seq<Team>)
    requires Known(all, teams) && multiset(Flatten(order)) == multiset(teams)
    requires c < |order| && multiset(shuffled) == multiset(order[c])
    ensures Known(all, shuffled)
    ensures forall i :: 0 <= i < |shuffled| ==> exists j :: 0 <= j < |teams| && teams[j] == shuffled[i]
  {
    forall i | 0 <= i < |shuffled| ensures exists j :: 0 <= j < |teams| && teams[j] == shuffled[i] {
      assert shuffled[i] in multiset(order[c]);
      FlattenMember(order, c, shuffled[i]);
      assert shuffled[i] in multiset(teams);
    }
  }

  /** Bookkeeping of the outer loop: the teams placed so far are the countries done so far. */
  lemma CountryStep(order: seq<seq<Team>>, c: nat, placed: seq<Team>, shuffled: seq<Team>)
    requires c < |order|
    requires multiset(placed) == multiset(Flatten(order[..c])) && multiset(shuffled) == multiset(order[c])
    ensures multiset(placed + shuffled) == multiset(Flatten(order[..c + 1]))
  {
    var done := order[..c];
    assert order[..c + 1] == done + [order[c]];
    FlattenAppend(done, order[c]);
    calc {
      multiset(Flatten(order[..c + 1]));
      multiset(Flatten(done) + order[c]);
      multiset(Flatten(done)) + multiset(order[c]);
      multiset(placed) + multiset(shuffled);
      multiset(placed + shuffled);
    }
  }

  /** The placed ids after one more country: the flattened groups gain exactly its teams' ids. */
  lemma CountryPlaced(order: seq<seq<Team>>, c: nat, placed: seq<Team>, shuffled: seq<Team>,
                      assign: Assignments, current: Assignments, next: Assignments)
    requires c < |order|
    requires multiset(placed) == multiset(Flatten(order[..c])) && multiset(shuffled) == multiset(order[c])
    requires multiset(Flatten(current)) == multiset(Flatten(assign)) + multiset(Ids(placed))
    requires multiset(Flatten(next)) == multiset(Flatten(current)) + multiset(Ids(shuffled))
    ensures multiset(placed + shuffled) == multiset(Flatten(order[..c + 1]))
    ensures multiset(Flatten(next)) == multiset(Flatten(assign)) + multiset(Ids(placed + shuffled))
  {
    CountryStep(order, c, placed, shuffled);
    IdsAppend(placed, shuffled);
    AddAssoc(multiset(Flatten(assign)), multiset(Ids(placed)), multiset(Ids(shuffled)));
  }

  /** The inner loop: one country's shuffled teams, each placed in turn. */
  method PlaceCountry(teams: seq<Team>, assign: Assignments, all: seq<Team>) returns (r: Result<Assignments, DrawError>)
    requires AllGroupsOk(all, assign) && Known(all, teams)
    ensures r.Err? ==> exists i :: 0 <= i < |teams| && r.error == NoValidGroup(teams[i].id)
    ensures r.Ok? ==> Extends(assign, r.value) && AllGroupsOk(all, r.value)
    ensures r.Ok? ==> multiset(Flatten(r.value)) == multiset(Flatten(assign)) + multiset(Ids(teams))
  {
    var current := assign;
    for i := 0 to |teams|
      invariant Extends(assign, current) && AllGroupsOk(all, current)
      invariant multiset(Flatten(current)) == multiset(Flatten(assign)) + multiset(Ids(teams[..i]))
    {
      var placed := PlaceTeam(teams[i], current, all);
      if placed.Err? {
        return Err(placed.error);
      }
      IdsSnoc(teams, i);
      AddAssoc(multiset(Flatten(assign)), multiset(Ids(teams[..i])), multiset{teams[i].id});
      ExtendsTransitive(assign, current, placed.value);
      current := placed.value;
    }
    assert teams[..|teams|] == teams;
    return Ok(current);
  }

  /**
   * `drawPotWithCountryPriority`: the pot's countries largest first, each country's
   * teams shuffled, every team placed; a team with no valid group fails the attempt.
   */
  method DrawPotWithCountryPriority(teams: seq<Team>, assign: Assignments, all: seq<Team>)
    returns (r: Result<Assignments, DrawError>)
    requires AllGroupsOk(all, assign) && Known(all, teams)
    ensures r.Err? ==> exists i :: 0 <= i < |teams| && r.error == NoValidGroup(teams[i].id)
    ensures r.Ok? ==> Extends(assign, r.value) && AllGroupsOk(all, r.value)
    ensures r.Ok? ==> multiset(Flatten(r.value)) == multiset(Flatten(assign)) + multiset(Ids(teams))
  {
    var teamsByCountry := DrawOrder(teams);
    DrawOrderProperties(teams);
    r := DrawCountries(teamsByCountry, teams, assign, all);
  }

  /** The outer loop over the countries of one pot, in the given order. */
  method DrawCountries(teamsByCountry: seq<seq<Team>>, teams: seq<Team>, assign: Assignments, all: seq<Team>)
    returns (r: Result<Assignments, DrawError>)
    requires AllGroupsOk(all, assign) && Known(all, teams)
    requires multiset(Flatten(teamsByCountry)) == multiset(teams)
    ensures r.Err? ==> exists i :: 0 <= i < |teams| && r.error == NoValidGroup(teams[i].id)
    ensures r.Ok? ==> Extends(assign, r.value) && AllGroupsOk(all, r.value)
    ensures r.Ok? ==> multiset(Flatten(r.value)) == multiset(Flatten(assign)) + multiset(Ids(teams))
  {
    var current := assign;
    ghost var placed: seq<Team> := [];
    for c := 0 to |teamsByCountry|
      invariant Extends(assign, current) && AllGroupsOk(all, current)
      invariant multiset(placed) == multiset(Flatten(teamsByCountry[..c]))
      invariant multiset(Flatten(current)) == multiset(Flatten(assign)) + multiset(Ids(placed))
    {
      var countryTeams := teamsByCountry[c];
      var shuffled: seq<Team> :| multiset(shuffled) == multiset(countryTeams);
      ShuffledKnown(all, teams, teamsByCountry, c, shuffled);
      var placedCountry := PlaceCountry(shuffled, current, all);
      if placedCountry.Err? {
        var i :| 0 <= i < |shuffled| && placedCountry.error == NoValidGroup(shuffled[i].id);
        var j :| 0 <= j < |teams| && teams[j] == shuffled[i];
        return Err(placedCountry.error);
      }
      CountryPlaced(teamsByCountry, c, placed, shuffled, assign, current, placedCountry.value);
      ExtendsTransitive(assign, current, placedCountry.value);
      placed := placed + shuffled;
      current := placedCountry.value;
    }
    assert teamsByCountry[..|teamsByCountry|] == teamsByCountry;
    IdsPermutation(placed, teams);
    return Ok(current);
  }

  /** The teams of one pot, in table order (`$allTeams->groupBy('pot')[p]`); empty when the pot is missing. */
  function PotTeams(all: seq<Team>, p: int): seq<Team>
  {
    WithKey(all, PotOf, p)
  }

  /** With unique ids, a pot's teams are the teams their ids name. */
  lemma PotTeamsKnown(all: seq<Team>, p: int)
    requires UniqueIds(all)
    ensures Known(all, PotTeams(all, p))
  {
    var pot := PotTeams(all, p);
    forall i | 0 <= i < |pot| ensures FindTeam(all, pot[i].id) == Some(pot[i]) {
      assert pot[i] in multiset(pot);
      WithKeyMultiset(all, PotOf, p, pot[i]);
      assert pot[i] in multiset(all);
      FindTeamUnique(all, pot[i]);
    }
  }

  /** The groups at the start of an attempt: n empty member lists. */
  function EmptyGroups(n: nat): (a: Assignments)
    ensures |a| == n && forall k :: 0 <= k < n ==> a[k] == []
  {
    seq(n, k => [])
  }

  /** Ids of the first n teams, one per group. */
  function Singletons(ids: seq<TeamId>): (a: Assignments)
    ensures |a| == |ids| && forall k :: 0 <= k < |ids| ==> a[k] == [ids[k]]
  {
    seq(|ids|, k requires 0 <= k < |ids| => [ids[k]])
  }

  lemma {:induction false} FlattenSingletons(ids: seq<TeamId>)
    ensures Flatten(Singletons(ids)) == ids
  {
    if ids != [] {
      assert Singletons(ids)[1..] == Singletons(ids[1..]);
      FlattenSingletons(ids[1..]);
    }
  }

  /**
   * `drawPot1`: the pot-1 teams are shuffled and the i-th goes to the i-th group; a pot
   * with fewer teams than groups reads past its end, which fails the attempt.
   * `seeds` is the shuffled order.
   */
  method DrawPot1(teams: seq<Team>, assign: Assignments) returns (r: Result<Assignments, DrawError>, ghost seeds: seq<Team>)
    ensures multiset(seeds) == multiset(teams)
    ensures r.Err? <==> |teams| < |assign|
    ensures r.Err? ==> r.error == NotEnoughSeeds
    ensures r.Ok? ==> |assign| <= |seeds| && |r.value| == |assign|
    ensures r.Ok? ==> forall k :: 0 <= k < |assign| ==> r.value[k] == assign[k] + [seeds[k].id]
  {
    var shuffledTeams: seq<Team> :| multiset(shuffledTeams) == multiset(teams);
    seeds := shuffledTeams;
    assert |shuffledTeams| == |multiset(teams)| == |teams|;
    var current := assign;
    for index := 0 to |assign|
      invariant |current| == |assign|
      invariant index <= |shuffledTeams|
      invariant forall k :: 0 <= k < index ==> current[k] == assign[k] + [shuffledTeams[k].id]
      invariant forall k :: index <= k < |assign| ==> current[k] == assign[k]
    {
      if index >= |shuffledTeams| {
        return Err(NotEnoughSeeds), seeds;
      }
      current := current[index := current[index] + [shuffledTeams[index].id]];
    }
    r := Ok(current);
  }

  /** Every group has at least its seed. */
  predicate Seeded(assign: Assignments)
  {
    forall k :: 0 <= k < |assign| ==> |assign[k]| >= 1
  }

  /** The first member of every group: its pot-1 seed. */
  function Seeds(assign: Assignments): (ids: seq<TeamId>)
    requires Seeded(assign)
    ensures |ids| == |assign| && forall k :: 0 <= k < |assign| ==> ids[k] == assign[k][0]
  {
    seq(|assign|, k requires 0 <= k < |assign| && Seeded(assign) => assign[k][0])
  }

  /** The teams of pots 2, 3 and 4, in draw order of the pots. */
  function LaterPots(all: seq<Team>): seq<Team>
  {
    PotTeams(all, 2) + PotTeams(all, 3) + PotTeams(all, 4)
  }

  /**
   * A completed draw over n groups: every group holds a seed first, groups keep the
   * membership invariant, the seeds are distinct pot-1 teams, and the other members are
   * exactly the teams of pots 2 to 4, each placed once.
   */
  predicate SoundDraw(all: seq<Team>, n: nat, assign: Assignments)
  {
    && |assign| == n && AllGroupsOk(all, assign) && Seeded(assign)
    && multiset(Seeds(assign)) <= multiset(Ids(PotTeams(all, 1)))
    && multiset(Flatten(assign)) == multiset(Seeds(assign)) + multiset(Ids(LaterPots(all)))
  }

  /** The ways one attempt can fail. */
  predicate AttemptError(e: DrawError)
  {
    e.PotMissing? || e.NotEnoughSeeds? || e.NoValidGroup?
  }

  lemma ExtendsKeepsSeeds(a: Assignments, b: Assignments)
    requires Extends(a, b) && Seeded(a)
    ensures Seeded(b) && Seeds(b) == Seeds(a)
  {
    forall k | 0 <= k < |a| ensures |b[k]| >= 1 && b[k][0] == a[k][0] {
      assert a[k] == b[k][..|a[k]|];
    }
  }

  /** The seeds drawn are distinct teams of pot 1. */
  lemma SeedsFromPot(seeds: seq<Team>, pot: seq<Team>, n: nat)
    requires multiset(seeds) == multiset(pot) && n <= |seeds|
    ensures multiset(Ids(seeds[..n])) <= multiset(Ids(pot))
  {
    IdsPermutation(seeds, pot);
    assert seeds == seeds[..n] + seeds[n..];
    IdsAppend(seeds[..n], seeds[n..]);
  }

  /** One team per group satisfies the membership invariant. */
  lemma SingletonsSound(all: seq<Team>, ids: seq<TeamId>)
    ensures AllGroupsOk(all, Singletons(ids)) && Seeded(Singletons(ids))
    ensures Seeds(Singletons(ids)) == ids
    ensures multiset(Flatten(Singletons(ids))) == multiset(ids)
  {
    FlattenSingletons(ids);
  }

  /** Seeding empty groups yields one seed per group. */
  lemma SeedingIsSingletons(seeds: seq<Team>, n: nat, seeded: Assignments)
    requires n <= |seeds|
    requires |seeded| == n && forall k :: 0 <= k < n ==> seeded[k] == EmptyGroups(n)[k] + [seeds[k].id]
    ensures seeded == Singletons(Ids(seeds[..n]))
  {
    forall k | 0 <= k < n ensures seeded[k] == Singletons(Ids(seeds[..n]))[k] {
      assert EmptyGroups(n)[k] == [];
    }
  }

  /** One of pots 2 to 4: missing fails the attempt; otherwise the pot is drawn with country priority. */
  method DrawPot(all: seq<Team>, p: int, current: Assignments) returns (r: Result<Assignments, DrawError>)
    requires UniqueIds(all) && AllGroupsOk(all, current)
    ensures r.Ok? ==> PotTeams(all, p) != [] && Extends(current, r.value) && AllGroupsOk(all, r.value)
    ensures r.Ok? ==> multiset(Flatten(r.value)) == multiset(Flatten(current)) + multiset(Ids(PotTeams(all, p)))
    ensures PotTeams(all, p) == [] ==> r == Err(PotMissing(p))
    ensures r.Err? ==> AttemptError(r.error)
    ensures r.Err? && r.error.NoValidGroup? ==> r.error.team in Ids(PotTeams(all, p))
  {
    var teams := PotTeams(all, p);
    if teams == [] {
      return Err(PotMissing(p));
    }
    PotTeamsKnown(all, p);
    r := DrawPotWithCountryPriority(teams, current, all);
    if r.Err? {
      var i :| 0 <= i < |teams| && r.error == NoValidGroup(teams[i].id);
      assert Ids(teams)[i] == teams[i].id;
    }
  }

  /** Pots 2, 3 and 4 in turn; a missing pot fails the attempt before it is drawn. */
  method DrawLaterPots(all: seq<Team>, seeded: Assignments) returns (r: Result<Assignments, DrawError>)
    requires UniqueIds(all) && AllGroupsOk(all, seeded)
    ensures r.Ok? ==> Extends(seeded, r.value) && AllGroupsOk(all, r.value)
    ensures r.Ok? ==> multiset(Flatten(r.value)) == multiset(Flatten(seeded)) + multiset(Ids(LaterPots(all)))
    ensures r.Ok? ==> PotTeams(all, 2) != [] && PotTeams(all, 3) != [] && PotTeams(all, 4) != []
    ensures PotTeams(all, 2) == [] ==> r == Err(PotMissing(2))
    ensures r.Err? ==> AttemptError(r.error)
    ensures r.Err? && r.error.NoValidGroup? ==> r.error.team in Ids(LaterPots(all))
  {
    LaterPotsIds(all);
    var after2 := DrawPot(all, 2, seeded);
    if after2.Err? {
      return after2;
    }
    var after3 := DrawPot(all, 3, after2.value);
    if after3.Err? {
      return after3;
    }
    var after4 := DrawPot(all, 4, after3.value);
    if after4.Err? {
      return after4;
    }
    ExtendsTransitive(seeded, after2.value, after3.value);
    ExtendsTransitive(seeded, after3.value, after4.value);
    var s0, p2, p3, p4 := multiset(Flatten(seeded)), multiset(Ids(PotTeams(all, 2))),
      multiset(Ids(PotTeams(all, 3))), multiset(Ids(PotTeams(all, 4)));
    AddAssoc(s0, p2, p3);
    AddAssoc(s0, p2 + p3, p4);
    r := after4;
  }

  lemma LaterPotsIds(all: seq<Team>)
    ensures multiset(Ids(LaterPots(all)))
      == multiset(Ids(PotTeams(all, 2))) + multiset(Ids(PotTeams(all, 3))) + multiset(Ids(PotTeams(all, 4)))
    ensures forall x :: x in Ids(PotTeams(all, 2)) || x in Ids(PotTeams(all, 3)) || x in Ids(PotTeams(all, 4)) ==> x in Ids(LaterPots(all))
  {
    IdsAppend(PotTeams(all, 2), PotTeams(all, 3));
    IdsAppend(PotTeams(all, 2) + PotTeams(all, 3), PotTeams(all, 4));
  }

  /**
   * One attempt of `performDraw`: empty groups, pot 1 seeded, then pots 2 to 4 with
   * country priority. A missing pot, too few seeds or a dead end fails the attempt.
   */
  method DrawAttempt(all: seq<Team>, n: nat) returns (r: Result<Assignments, DrawError>)
    requires UniqueIds(all)
    ensures r.Ok? ==> SoundDraw(all, n, r.value)
    ensures r.Ok? ==> PotTeams(all, 2) != [] && PotTeams(all, 3) != [] && PotTeams(all, 4) != []
    ensures r.Err? ==> AttemptError(r.error)
    ensures r.Err? && r.error.NoValidGroup? ==> r.error.team in Ids(LaterPots(all))
    ensures PotTeams(all, 1) == [] ==> r == Err(PotMissing(1))
    ensures PotTeams(all, 1) != [] && |PotTeams(all, 1)| < n ==> r == Err(NotEnoughSeeds)
    ensures PotTeams(all, 1) != [] && |PotTeams(all, 1)| >= n && PotTeams(all, 2) == [] ==> r == Err(PotMissing(2))
  {
    var assignments := EmptyGroups(n);
    var pot1 := PotTeams(all, 1);
    if pot1 == [] {
      return Err(PotMissing(1));
    }
    var seeded, seeds := DrawPot1(pot1, assignments);
    if seeded.Err? {
      return Err(seeded.error);
    }
    SeedingIsSingletons(seeds, n, seeded.value);
    SingletonsSound(all, Ids(seeds[..n]));
    SeedsFromPot(seeds, pot1, n);
    var rest := DrawLaterPots(all, seeded.value);
    if rest.Err? {
      return rest;
    }
    ExtendsKeepsSeeds(seeded.value, rest.value);
    r := rest;
  }

  /**
   * `performDraw`: up to 100 attempts, each from empty groups; the first successful
   * attempt is the result, and the failure of the last attempt is rethrown. The ghost
   * outputs count the attempts made and list the failures met on the way: a draw gives
   * up only after every one of the 100 attempts has failed.
   */
  method PerformDraw(all: seq<Team>, n: nat) returns (r: Result<Assignments, DrawError>, ghost attempts: nat, ghost failures: seq<DrawError>)
    requires UniqueIds(all)
    ensures r.Ok? ==> SoundDraw(all, n, r.value)
    ensures r.Err? ==> AttemptError(r.error)
    ensures PotTeams(all, 1) == [] ==> r == Err(PotMissing(1))
    ensures PotTeams(all, 1) != [] && |PotTeams(all, 1)| < n ==> r == Err(NotEnoughSeeds)
    ensures PotTeams(all, 1) != [] && |PotTeams(all, 1)| >= n && PotTeams(all, 2) == [] ==> r == Err(PotMissing(2))
    ensures 1 <= attempts <= MaxAttempts
    ensures r.Ok? ==> |failures| == attempts - 1
    ensures r.Err? ==> attempts == MaxAttempts && |failures| == MaxAttempts && r.error == failures[MaxAttempts - 1]
    ensures forall k :: 0 <= k < |failures| ==> AttemptError(failures[k])
  {
    var attempt := 1;
    failures := [];
    while true
      invariant 1 <= attempt <= MaxAttempts
      invariant |failures| == attempt - 1
      invariant forall k :: 0 <= k < |failures| ==> AttemptError(failures[k])
      decreases MaxAttempts - attempt
    {
      r := DrawAttempt(all, n);
      attempts := attempt;
      if r.Err? {
        failures := failures + [r.error];
      }
      if r.Ok? || attempt == MaxAttempts {
        return;
      }
      attempt := attempt + 1;
    }
  }

  /** The monolith's performDraw: as above, but the last failure is wrapped with the attempt count. */
  method LeaguePerformDraw(all: seq<Team>, n: nat) returns (r: Result<Assignments, DrawError>, ghost attempts: nat)
    requires UniqueIds(all)
    ensures r.Ok? ==> SoundDraw(all, n, r.value)
    ensures r.Err? ==> r.error.Exhausted? && r.error.attempts == MaxAttempts && AttemptError(r.error.last)
    ensures PotTeams(all, 1) == [] ==> r == Err(Exhausted(MaxAttempts, PotMissing(1)))
    ensures 1 <= attempts <= MaxAttempts
    ensures r.Err? ==> attempts == MaxAttempts && r.error.attempts == attempts
  {
    ghost var failures;
    r, attempts, failures := PerformDraw(all, n);
    if r.Err? {
      r := Err(Exhausted(MaxAttempts, r.error));
    }
  }

  /** Number of teams from country c. */
  function CountryCount(all: seq<Team>, c: string): nat
  {
    |WithKey(all, CountryOf, c)|
  }

  /** The draw's preconditions: some group, four teams per group, no country with more teams than groups. */
  predicate DrawAdmissible(all: seq<Team>, n: nat)
  {
    n > 0 && |all| == TeamsPerGroup * n
    && forall i :: 0 <= i < |all| ==> CountryCount(all, all[i].country) <= n
  }

  /** The errors validation reports. */
  predicate ValidationError(e: DrawError)
  {
    e.NoGroups? || e.WrongTeamCount? || e.TooManyFromCountry?
  }

  /**
   * `validateDrawPreconditions`: no groups, a team count other than four per group, or
   * (in order of first appearance) a country with more teams than groups is an error.
   */
  method ValidateDrawPreconditions(all: seq<Team>, groups: seq<Group>) returns (r: Outcome<DrawError>)
    ensures r.Pass? <==> DrawAdmissible(all, |groups|)
    ensures r.Fail? ==> ValidationError(r.error)
    ensures |groups| == 0 ==> r == Fail(NoGroups)
    ensures |groups| > 0 && |all| != TeamsPerGroup * |groups| ==> r == Fail(WrongTeamCount(TeamsPerGroup * |groups|, |all|))
    ensures r.Fail? && r.error.TooManyFromCountry? ==>
      r.error.count == CountryCount(all, r.error.country) && r.error.count > |groups|
    ensures r.Fail? && r.error.TooManyFromCountry? ==>
      exists i :: 0 <= i < |DistinctKeys(all, CountryOf)| && DistinctKeys(all, CountryOf)[i] == r.error.country
        && forall j :: 0 <= j < i ==> CountryCount(all, DistinctKeys(all, CountryOf)[j]) <= |groups|
  {
    var groupCount := |groups|;
    if groupCount == 0 {
      return Fail(NoGroups);
    }
    var expectedTeamCount := groupCount * TeamsPerGroup;
    if |all| != expectedTeamCount {
      return Fail(WrongTeamCount(expectedTeamCount, |all|));
    }
    var over := FirstCountryOverLimit(all, groupCount);
    if over.Some? {
      var countries := DistinctKeys(all, CountryOf);
      OverLimitInadmissible(all, groupCount, over.value);
      return Fail(TooManyFromCountry(countries[over.value], CountryCount(all, countries[over.value])));
    }
    CountriesWithinLimit(all, groupCount);
    return Pass;
  }

  /**
   * The loop over `groupBy('country')->map->count()`: the position, among the countries
   * in order of first appearance, of the first one with more than n teams.
   */
  method FirstCountryOverLimit(all: seq<Team>, n: nat) returns (r: Option<nat>)
    ensures r.Some? ==> r.value < |DistinctKeys(all, CountryOf)| && CountryCount(all, DistinctKeys(all, CountryOf)[r.value]) > n
    ensures r.Some? ==> forall j :: 0 <= j < r.value ==> CountryCount(all, DistinctKeys(all, CountryOf)[j]) <= n
    ensures r.None? ==> forall j :: 0 <= j < |DistinctKeys(all, CountryOf)| ==> CountryCount(all, DistinctKeys(all, CountryOf)[j]) <= n
  {
    var countries := DistinctKeys(all, CountryOf);
    for i := 0 to |countries|
      invariant forall j :: 0 <= j < i ==> CountryCount(all, countries[j]) <= n
    {
      var count := |WithKey(all, CountryOf, countries[i])|;
      if count > n {
        return Some(i);
      }
    }
    return None;
  }

  /** With every country of the list within the limit, the draw is admissible as far as countries go. */
  lemma CountriesWithinLimit(all: seq<Team>, n: nat)
    requires forall j :: 0 <= j < |DistinctKeys(all, CountryOf)| ==> CountryCount(all, DistinctKeys(all, CountryOf)[j]) <= n
    ensures forall t :: 0 <= t < |all| ==> CountryCount(all, all[t].country) <= n
  {
    var countries := DistinctKeys(all, CountryOf);
    forall t | 0 <= t < |all| ensures CountryCount(all, all[t].country) <= n {
      assert CountryOf(all[t]) in countries;
    }
  }

  /** A country over the limit makes the draw inadmissible. */
  lemma OverLimitInadmissible(all: seq<Team>, n: nat, i: nat)
    requires i < |DistinctKeys(all, CountryOf)| && CountryCount(all, DistinctKeys(all, CountryOf)[i]) > n
    ensures !DrawAdmissible(all, n)
  {
    var countries := DistinctKeys(all, CountryOf);
    assert countries[i] in countries;
    var t :| 0 <= t < |all| && CountryOf(all[t]) == countries[i];
    assert CountryCount(all, all[t].country) > n;
  }

  /** A fresh `group_teams` record: every counter 0, no form, no guess. */
  function NewRecord(id: RecordId, g: GroupId, t: TeamId): Standing
  {
    Standing(id, g, t, 0, 0, 0, 0, 0, 0, 0, 0, 0, "")
  }

  /** The records of one group's members, numbered from base. */
  function GroupRows(base: nat, g: GroupId, ids: seq<TeamId>): (rs: seq<Standing>)
    ensures |rs| == |ids|
    ensures forall i :: 0 <= i < |ids| ==> rs[i] == NewRecord(base + i, g, ids[i])
  {
    seq(|ids|, i requires 0 <= i < |ids| => NewRecord(base + i, g, ids[i]))
  }

  /** The records saveToDB inserts: group after group, each member in order. */
  function Registrations(assign: Assignments, groups: seq<Group>): (rs: seq<Standing>)
    requires |assign| <= |groups|
    ensures |rs| == |Flatten(assign)|
  {
    if assign == [] then []
    else
      var init := assign[..|assign| - 1];
      var prev := Registrations(init, groups);
      FlattenAppend(init, assign[|assign| - 1]);
      assert assign == init + [assign[|assign| - 1]];
      prev + GroupRows(|prev|, groups[|assign| - 1].id, assign[|assign| - 1])
  }

  /** The records hold the assigned teams, in assignment order. */
  lemma {:induction false} RegistrationsTeams(assign: Assignments, groups: seq<Group>)
    requires |assign| <= |groups|
    ensures TeamIds(Registrations(assign, groups)) == Flatten(assign)
  {
    if assign != [] {
      var init := assign[..|assign| - 1];
      var last := assign[|assign| - 1];
      RegistrationsTeams(init, groups);
      var prev := Registrations(init, groups);
      SnocSplit(assign);
      FlattenAppend(init, last);
      RegisteredLast(prev, GroupRows(|prev|, groups[|assign| - 1].id, last), last);
    }
  }

  /** The team ids of the records so far, then those of one more group's records. */
  lemma RegisteredLast(prev: seq<Standing>, rows: seq<Standing>, ids: seq<TeamId>)
    requires |rows| == |ids| && forall i :: 0 <= i < |rows| ==> rows[i].teamId == ids[i]
    ensures TeamIds(prev + rows) == TeamIds(prev) + ids
  {
  }

  /** A record saveToDB creates at position id: numbered id, every counter 0, no form. */
  predicate Cleared(r: Standing, id: nat)
  {
    r.id == id && Consistent(r) && r.played == 0 && r.points == 0 && r.goalsFor == 0 && r.goalsAgainst == 0 && r.form == ""
  }

  /** Every record is cleared, and its id is its position. */
  lemma {:induction false} RegistrationsCleared(assign: Assignments, groups: seq<Group>)
    requires |assign| <= |groups|
    ensures forall i :: 0 <= i < |Registrations(assign, groups)| ==> Cleared(Registrations(assign, groups)[i], i)
  {
    if assign != [] {
      var init := assign[..|assign| - 1];
      var last := assign[|assign| - 1];
      RegistrationsCleared(init, groups);
      var prev := Registrations(init, groups);
      var rows := GroupRows(|prev|, groups[|assign| - 1].id, last);
      var rs := Registrations(assign, groups);
      assert rs == prev + rows;
      forall i | 0 <= i < |rs|
        ensures Cleared(rs[i], i)
      {
        if i < |prev| {
          assert rs[i] == prev[i];
        } else {
          assert rs[i] == rows[i - |prev|] == NewRecord(i, groups[|assign| - 1].id, last[i - |prev|]);
        }
      }
    }
  }

  /** Record r belongs to a group k whose assigned members include r's team. */
  predicate PlacedIn(r: Standing, assign: Assignments, groups: seq<Group>)
  {
    exists k :: 0 <= k < |assign| && k < |groups| && r.groupId == groups[k].id && r.teamId in assign[k]
  }

  /** Every record's team is a member of the record's group. */
  lemma {:induction false} RegistrationsGroups(assign: Assignments, groups: seq<Group>)
    requires |assign| <= |groups|
    ensures forall i :: 0 <= i < |Registrations(assign, groups)| ==> PlacedIn(Registrations(assign, groups)[i], assign, groups)
  {
    if assign != [] {
      var init := assign[..|assign| - 1];
      var last := assign[|assign| - 1];
      RegistrationsGroups(init, groups);
      var prev := Registrations(init, groups);
      var rows := GroupRows(|prev|, groups[|assign| - 1].id, last);
      var rs := Registrations(assign, groups);
      assert rs == prev + rows;
      forall i | 0 <= i < |rs|
        ensures PlacedIn(rs[i], assign, groups)
      {
        if i < |prev| {
          assert PlacedIn(prev[i], init, groups);
          var k :| 0 <= k < |init| && k < |groups| && prev[i].groupId == groups[k].id && prev[i].teamId in init[k];
          assert rs[i] == prev[i] && init[k] == assign[k];
        } else {
          assert rs[i] == rows[i - |prev|] == NewRecord(i, groups[|assign| - 1].id, last[i - |prev|]);
          assert rs[i].teamId in assign[|assign| - 1];
        }
      }
    }
  }

  /** `saveToDB`: the bulk insert built group by group. */
  method SaveToDB(assign: Assignments, groups: seq<Group>) returns (records: seq<Standing>)
    requires |assign| == |groups|
    ensures records == Registrations(assign, groups)
  {
    records := [];
    for k := 0 to |assign|
      invariant records == Registrations(assign[..k], groups)
    {
      var teamIds := assign[k];
      ghost var before := records;
      for i := 0 to |teamIds|
        invariant records == before + GroupRows(|before|, groups[k].id, teamIds[..i])
      {
        records := records + [NewRecord(|records|, groups[k].id, teamIds[i])];
      }
      assert teamIds[..|teamIds|] == teamIds;
      assert assign[..k + 1][..k] == assign[..k];
    }
    assert assign[..|assign|] == assign;
  }

  /**
   * `drawGroups`: validate, draw, save. A failed validation or draw inserts nothing;
   * on success the records are those of a sound draw over the groups.
   */
  method DrawGroups(all: seq<Team>, groups: seq<Group>) returns (r: Result<seq<Standing>, DrawError>)
    requires UniqueIds(all)
    ensures !DrawAdmissible(all, |groups|) ==> r.Err? && ValidationError(r.error)
    ensures r.Err? ==> ValidationError(r.error) || AttemptError(r.error)
    ensures r.Ok? ==> DrawAdmissible(all, |groups|)
    ensures r.Ok? ==> exists a :: SoundDraw(all, |groups|, a) && r.value == Registrations(a, groups)
  {
    var valid := ValidateDrawPreconditions(all, groups);
    if valid.Fail? {
      return Err(valid.error);
    }
    var result;
    ghost var attempts, failures;
    result, attempts, failures := PerformDraw(all, |groups|);
    if result.Err? {
      return Err(result.error);
    }
    var records := SaveToDB(result.value, groups);
    r := Ok(records);
  }

  /** The monolith's drawGroups: the same, with the wrapped draw failure. */
  method LeagueDrawGroups(all: seq<Team>, groups: seq<Group>) returns (r: Result<seq<Standing>, DrawError>)
    requires UniqueIds(all)
    ensures !DrawAdmissible(all, |groups|) ==> r.Err? && ValidationError(r.error)
    ensures r.Err? ==> ValidationError(r.error) || r.error.Exhausted?
    ensures r.Ok? ==> DrawAdmissible(all, |groups|)
    ensures r.Ok? ==> exists a :: SoundDraw(all, |groups|, a) && r.value == Registrations(a, groups)
  {
    var valid := ValidateDrawPreconditions(all, groups);
    if valid.Fail? {
      return Err(valid.error);
    }
    var result;
    ghost var attempts;
    result, attempts := LeaguePerformDraw(all, |groups|);
    if result.Err? {
      return Err(result.error);
    }
    var records := SaveToDB(result.value, groups);
    r := Ok(records);
  }
}
