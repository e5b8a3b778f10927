# Group-stage league simulator: a Dafny model

This project models the integer and combinatorial core of a football group-stage
simulator. The simulator has five parts:

- **The draw.** It validates the team and group counts. It seeds one pot-1 team into
  each group, then places the teams of pots 2 to 4 country by country. A team goes only
  to a group with room and with no member from the same pot or country. A draw that
  reaches a dead end restarts, up to 100 times.
- **The fixture scheduler.** It builds a fixed six-week double round robin for each
  four-team group. It gives each group a RED or BLUE broadcast side, and the side and
  week fix the weekday.
- **The standings updater.** It applies one result to a team's record in a working set
  keyed by team id.
- **The match services.** They play the next week, play the next single match, play all
  weeks, and correct a score. A correction zeroes the group and replays its played
  matches in week order.
- **The match engine and prediction service.** The engine reads a team's form bonus and
  runs the goal-drawing loops. The prediction service turns power scores into
  percentage guesses that sum to 100, and computes the read-only probabilities.

The repository holds this logic twice: once in the split services
(`League/*`, `Domain/*`) and once in the monolith `app/Services/LeagueService.php`. Each
concept is modelled once. A `League…` member appears only where the monolith's code
differs:

- the final error wrapping of the draw;
- the lookup and the loop shape of the form bonus and goal loop;
- how a week finishes (`LeaguePlayNextWeek`);
- which columns a correction saves;
- which records a correction loads: the group's own records in the monolith
  (`GroupRecords`, `LeagueService.php:718`), every record of the group's teams in the
  split service (`TeamRecords`, `MatchService.php:181-183`).

Where the two copies agree, the shared member's row cites the split service.
The monolith's copies are at:

- `LeagueService.php:37-234` (draw);
- `306-432` (fixtures, sides, weekday);
- `503-560` and `647-676` (predictions);
- `561-578` (standings update).

Modules, one per file:

- `Wrappers`: Option, Result and Outcome.
- `Model`: the entities Team, Group, Standing and Fixture.
- `Collections`: group-by, stable sorts with permutation and stability lemmas, and keyed lists (a PHP array appended to by key).
- `Standings`: the result update, and the `WorkingSet` class whose `rows` map the
  updater changes in place.
- `Draw`, `Schedule`, `Engine` and `Prediction`.
- `Matches`: fixture queries, playing weeks and matches.
- `Correction`: the score correction.

Randomness is an argument, so every property holds for every outcome of the draws. Two
kinds of randomness are modelled:

- `shuffle` and `array_rand` are nondeterministic choices (`:|`).
- The simulated scores and goal-loop draws are oracle functions.

The two tables the match services change, `fixture` and `group_teams`, are values
(`Matches.Tables`). A transaction that throws returns the tables it was given.

## Model

| member | source | states |
|---|---|---|
| Draw.ValidateDrawPreconditions | app/Services/League/LeagueSetupService.php:75-91 | passes exactly when there is a group, the team count is four per group, and no country has more teams than groups; reports no groups first, then the wrong count, then the first country over the limit, in order of first appearance, with its count |
| Draw.FirstCountryOverLimit | app/Services/League/LeagueSetupService.php:85-90 | the loop over the country counts stops at the first country, in order of first appearance, with more teams than groups, or at none exactly when every country is within the limit |
| Draw.FindTeam | app/Services/League/LeagueSetupService.php:156 | finds a team of the list with the given id, and finds nothing exactly when no team has that id |
| Draw.ValidGroups | app/Services/League/LeagueSetupService.php:147-171 | lists, in increasing group order, only groups that admit the team, and every group below n that admits it |
| Draw.ValidGroupsExactly | app/Services/League/LeagueSetupService.php:147-171 | a group index is valid if and only if it is a group with fewer than four members, none sharing the team's pot or country |
| Draw.FindValidGroupsForTeam | app/Services/League/LeagueSetupService.php:147-171 | the loop over the groups, skipping every group that fails a check, returns exactly the valid groups, in group order |
| Draw.GroupAdmits | app/Services/League/LeagueSetupService.php:151-168 | one group passes the size, pot and country checks exactly when it has room and no known member shares the team's pot or country |
| Draw.PlacementPreserves | app/Services/League/LeagueSetupService.php:131-145 | adding an admitted team to a sound group keeps at most four members with pairwise different pots and countries |
| Draw.PlaceTeam | app/Services/League/LeagueSetupService.php:137-142 | fails with the team's id exactly when no group admits it; otherwise appends it to one admitting group, keeps every group sound and adds exactly that id to the members |
| Draw.PlaceCountry | app/Services/League/LeagueSetupService.php:136-143 | placing one country's shuffled teams keeps all groups sound, only appends, and adds exactly those teams' ids |
| Draw.DrawCountries | app/Services/League/LeagueSetupService.php:135-144 | over all countries of a pot: only appends, keeps every group sound, and adds each team of the pot exactly once |
| Draw.DrawPotWithCountryPriority | app/Services/League/LeagueSetupService.php:131-145 | a pot is placed country by country; on success the groups stay sound and gain exactly the pot's team ids; a failure names a team of the pot |
| Draw.DrawOrderProperties | app/Services/League/LeagueSetupService.php:133 | countries are visited in non-increasing order of team count, and the visit order holds exactly the pot's teams |
| Draw.DrawPot1 | app/Services/League/LeagueSetupService.php:123-129 | with fewer pot-1 teams than groups it fails; otherwise group k receives exactly the k-th team of a shuffle of pot 1 |
| Draw.DrawPot | app/Services/League/LeagueSetupService.php:105-110 | an empty pot is the missing-pot error; a success keeps groups sound and adds exactly the pot's ids |
| Draw.DrawLaterPots | app/Services/League/LeagueSetupService.php:108-110 | pots 2, 3 and 4 in order: on success every team of those pots is added exactly once; a failure is a missing pot or names a team of those pots |
| Draw.DrawAttempt | app/Services/League/LeagueSetupService.php:99-112 | one attempt either yields a sound draw (a distinct pot-1 seed heads each group, the rest are exactly the pot 2-4 teams, all groups sound) or fails with a missing pot, too few seeds or a team with no group, in that order of checks |
| Draw.PerformDraw | app/Services/League/LeagueSetupService.php:93-121 | up to 100 attempts from empty groups: a success is a sound draw; a failure comes only after all 100 attempts have failed (the ghost count of attempts is 100 and every recorded failure is an attempt error) and is the last attempt's error |
| Draw.LeaguePerformDraw | app/Services/LeagueService.php:69-113 | the monolith's retry loop: a success is a sound draw; a failure comes only after 100 attempts were made (the ghost count) and wraps that count with the last attempt's error |
| Draw.RegistrationsTeams | app/Services/League/LeagueSetupService.php:178-184 | the saved records carry the assigned team ids, group by group, in placement order |
| Draw.RegistrationsCleared | app/Services/League/LeagueSetupService.php:181-195 | every saved record is numbered by its position and starts with every counter 0 and an empty form, so it is consistent |
| Draw.RegistrationsGroups | app/Services/League/LeagueSetupService.php:178-184 | every saved record carries the id of the group its team was placed in |
| Draw.SaveToDB | app/Services/League/LeagueSetupService.php:173-200 | the nested loop builds exactly one record per assigned team, as the registrations function describes |
| Draw.DrawGroups | app/Services/League/LeagueSetupService.php:34-45 | an inadmissible input is a validation error; a success is admissible and its records are the registrations of some sound draw |
| Draw.LeagueDrawGroups | app/Services/LeagueService.php:21-35 | the same as DrawGroups, with the monolith's wrapped draw failure |
| Schedule.MatrixIndicesInRange | app/Domain/Scheduler/FixtureGenerator.php:14-21 | every matrix entry names team indices 0 to 3 |
| Schedule.MatrixOncePerWeek | app/Domain/Scheduler/FixtureGenerator.php:14-21 | each of the four indices appears exactly once in every week |
| Schedule.MatrixEachPairOnce | app/Domain/Scheduler/FixtureGenerator.php:14-21 | every ordered pair of distinct indices meets exactly once over six weeks, and no index meets itself |
| Schedule.MatrixHomeAndAway | app/Domain/Scheduler/FixtureGenerator.php:14-21 | each index is at home three times and away three times |
| Schedule.MatrixSecondLegMirrors | app/Domain/Scheduler/FixtureGenerator.php:14-21 | week w + 3 is week w with home and away swapped, for the first three weeks |
| Schedule.CalculateMatchDay | app/Domain/Scheduler/FixtureGenerator.php:88-97 | RED plays Tuesday exactly on odd weeks, BLUE exactly on even weeks |
| Schedule.SidesNeverShareADay | app/Domain/Scheduler/FixtureGenerator.php:88-97 | in any week RED and BLUE play on different days |
| Schedule.GroupScheduleShape | app/Domain/Scheduler/FixtureGenerator.php:23-43 | a group's 12 fixtures carry its id, weeks 1 to 6 two at a time, played false, consecutive ids, one match day per week, and the teams the matrix names |
| Schedule.GroupScheduleWeeksDisjoint | app/Domain/Scheduler/FixtureGenerator.php:27-42 | with four distinct teams no team meets itself and no team plays twice in a week |
| Schedule.GroupScheduleEachPair | app/Domain/Scheduler/FixtureGenerator.php:27-42 | every ordered pair of distinct teams of the group has a fixture |
| Schedule.GroupSchedulePairsOnce | app/Domain/Scheduler/FixtureGenerator.php:27-42 | with four distinct teams no ordered pair has two fixtures |
| Schedule.AllSchedulesBlock | app/Domain/Scheduler/FixtureGenerator.php:23-43 | fixtures 12k to 12k+11 are group k's schedule from its side, a group with no side scheduled as RED |
| Schedule.ScheduleGroup | app/Domain/Scheduler/FixtureGenerator.php:27-42 | the week and match loops build exactly the group's schedule |
| Schedule.Generate | app/Domain/Scheduler/FixtureGenerator.php:9-46 | fails exactly when a group has fewer than four records, naming such a group; otherwise returns every group's schedule in order with the assigned sides |
| Schedule.GenerateFixtures | app/Services/League/LeagueSetupService.php:48-63 | no groups is an error; a success replaces the fixture table with the generated fixtures; a failure leaves the old table |
| Schedule.AssignRecord | app/Domain/Scheduler/FixtureGenerator.php:63-82 | gives the record's group a side only if it has none, never changes an assigned side, and keeps the counters equal to the number of RED and BLUE groups |
| Schedule.AssignBucket | app/Domain/Scheduler/FixtureGenerator.php:63-82 | after a country's records every group among them has a side, earlier sides are unchanged, and the counters agree with the map |
| Schedule.AssignAll | app/Domain/Scheduler/FixtureGenerator.php:60-83 | over all countries, the sides cover exactly the groups seen, earlier sides are kept, and the counters agree |
| Schedule.CountSideAdd | app/Domain/Scheduler/FixtureGenerator.php:76-81 | giving a new group a side raises that side's count by one and leaves the other |
| Schedule.TvOrderMultiset | app/Domain/Scheduler/FixtureGenerator.php:53-61 | the grouping by country and sorting by pot visit every group record exactly once |
| Schedule.TvSidesCover | app/Domain/Scheduler/FixtureGenerator.php:48-86 | every group with a record receives a side, no other group does, and the counters equal the side counts |
| Schedule.AssignCountry | app/Domain/Scheduler/FixtureGenerator.php:63-82 | the inner loop computes the bucket's assignment |
| Schedule.AssignCountries | app/Domain/Scheduler/FixtureGenerator.php:60-83 | the outer loop computes the assignment over all buckets |
| Schedule.AssignTvRightsSides | app/Domain/Scheduler/FixtureGenerator.php:48-86 | returns a side for exactly the groups with records, and counters equal to the number of RED and BLUE groups |
| Standings.ResultLetter | app/Services/League/MatchService.php:211 | W exactly for a win, D exactly for a draw, L exactly for a loss |
| Standings.TakeLast | app/Services/League/MatchService.php:211 | the result is at most n characters long and is a suffix of the string |
| Standings.Zeroed | app/Repositories/GroupRepository.php:92-105 | a reset record has all statistics 0 and an empty form, keeps its ids and its guess, and is consistent |
| Standings.ApplyResult | app/Services/League/MatchService.php:200-211 | played rises by one; exactly one of won, drawn and lost rises, won exactly when gf > ga and drawn exactly when gf = ga; points rise by 3, 1 or 0 accordingly; goals accumulate; goal difference is goals for minus against; the form keeps the last five letters |
| Standings.ApplyResultNewestLetter | app/Services/League/MatchService.php:211 | the newest letter of the form is W, D or L for the result just recorded |
| Standings.ApplyResultConsistent | app/Services/League/MatchService.php:200-211 | played = won + drawn + lost, points = 3·won + drawn, the goal difference and the five-letter form bound are kept by every update |
| Standings.ApplyAllTotals | app/Services/League/MatchService.php:185-188 | replaying results from a zero record gives played, wins, draws, points and goals equal to the totals over those results |
| Standings.ThreeOneWinFromZero | app/Services/LeagueServiceTest.php:52-78 | a 3-1 win from a zero record gives points 3, played 1, won 1 and form "W" |
| Standings.FirstInGroup | app/Services/League/MatchService.php:198 | the first record of the group, or none exactly when no record belongs to it |
| Standings.ApplyInGroup | app/Services/League/MatchService.php:198-212 | only the team's first record of the group changes, by one result; with no such record nothing changes |
| Standings.GroupByTeam | app/Services/League/MatchService.php:39 | the working set has an entry exactly for each team with a loaded record, holding only that team's records |
| Standings.Step | app/Services/League/MatchService.php:196-213 | a step succeeds exactly when the team has an entry, and changes no other team's entry |
| Standings.WorkingSet.constructor | app/Services/League/MatchService.php:39 | the working set is the loaded records grouped by team |
| Standings.WorkingSet.ProcessStatsInMemory | app/Services/League/MatchService.php:196-213 | the field-by-field update in place leaves the working set equal to one step of the result update |
| Engine.FormBonusRange | app/Domain/Simulation/MatchEngine.php:70-78 | the form bonus lies between -1.5 and +1.5 (-3 to 3 in half-units) |
| Engine.FormBonusExamples | tests/Unit/MatchEngineTest.php:149-209 | "WWWWW" gives 1.5, "WWDLW" gives 0 and the empty form gives 0 |
| Engine.FormBonusOf | app/Domain/Simulation/MatchEngine.php:67-79 | the loop over the last three characters computes wins minus losses among them, in [-3, 3] |
| Engine.FindKey | app/Domain/Simulation/MatchEngine.php:57 | the first entry with the key, or none exactly when no entry has it |
| Engine.FirstOfTeam | app/Domain/Simulation/MatchEngine.php:63-64 | the first single record of the team, or none exactly when there is no such record |
| Engine.LookupStats | app/Domain/Simulation/MatchEngine.php:57-65 | an entry keyed by the team is used directly (its first record of the group if it is a list); otherwise the first record of the team anywhere |
| Engine.GetFormBonus | app/Domain/Simulation/MatchEngine.php:54-79 | 0 without a record, otherwise the record's form bonus, always in [-3, 3] half-units |
| Engine.LeagueGetFormBonus | app/Services/LeagueService.php:621-637 | the monolith fails exactly when the team has no entry in the working set (the undefined key throws); otherwise it reads the team's first record of the group, 0 when it has none, the same last-three rule otherwise |
| Engine.GoalCountCharacterisation | app/Domain/Simulation/MatchEngine.php:44-51 | g is the goal count exactly when g ≤ 9, every draw before g succeeds, and g is 9 or its own draw fails |
| Engine.GenerateRealisticGoals | app/Domain/Simulation/MatchEngine.php:33-51 | the do-while terminates whatever the draws and returns the goal count, between 0 and 9 |
| Engine.LeagueGenerateRealisticGoals | app/Services/LeagueService.php:601-619 | the while loop with break returns the same goal count, between 0 and 9 |
| Prediction.Round | app/Services/League/PredictionService.php:52 | rounds to a nearest integer, halves away from zero |
| Prediction.RoundExamples | app/Services/League/PredictionService.php:52 | 2.5 rounds to 3, -2.5 to -3, 2.49 to 2 |
| Prediction.PowerScore | app/Services/League/PredictionService.php:30-46 | the power score is at least 1 and at least the raw formula, and equals one of the two |
| Prediction.PowerScoreMonotone | app/Services/League/PredictionService.php:34-40 | with non-negative points and strength, more points never lower the power score |
| Prediction.PowerScoreWithoutStrength | app/Services/League/PredictionService.php:32-42 | with strength 0, the value of the missing column, the power score is max(1, 2·goal difference) |
| Prediction.Powers | app/Services/League/PredictionService.php:30-47 | one power score per team, from its own record and strength |
| Prediction.Rounded | app/Services/League/PredictionService.php:49-57 | each entry is the rounded percentage share of its weight |
| Prediction.RoundedDrift | app/Services/League/PredictionService.php:49-57 | the rounded shares sum to within half a point per team of the exact percentage total |
| Prediction.ArgMaxFirst | app/Services/League/PredictionService.php:61 | the first position holding the largest score |
| Prediction.NormalisedAdjustsFirstStrongest | app/Services/League/PredictionService.php:59-62 | only the first strongest team gets the 100-minus-total adjustment, and only when the rounded total is positive and not 100; every other team keeps its rounded share |
| Prediction.SharesArePercentages | app/Services/League/PredictionService.php:51 | with scores of at least 1 every exact share lies in (0, 100] |
| Prediction.RoundedSharesNearHundred | app/Services/League/PredictionService.php:49-57 | the rounded total is within half a point per team of 100 |
| Prediction.NormalisedSum | app/Services/League/PredictionService.php:49-63 | for at most 200 teams, the normalised guesses sum to exactly 100 |
| Prediction.GuessesSumToHundred | app/Services/League/PredictionService.php:49-63 | past the gate the guesses of a group sum to exactly 100 |
| Prediction.NormalisedPercentages | app/Services/League/PredictionService.php:49-63 | in a group of at most four every normalised guess lies in [0, 100] |
| Prediction.GuessesArePercentages | app/Services/League/PredictionService.php:49-63 | past the gate, in a group of at most four, every guess lies in [0, 100] |
| Prediction.PowerScores | app/Services/League/PredictionService.php:27-47 | the loop computes every power score and their total |
| Prediction.RoundedShares | app/Services/League/PredictionService.php:49-57 | the loop computes every rounded share and their total |
| Prediction.GroupGuesses | app/Services/League/PredictionService.php:18-63 | gated groups get all zeros; otherwise, for at most 200 teams, the guesses sum to 100 and, for at most four teams, lie in [0, 100] |
| Prediction.WithGuesses | app/Services/League/PredictionService.php:56-62 | writing guesses changes only the guess field, and only of the group's records |
| Prediction.WithGuessesReadBack | app/Services/League/PredictionService.php:56 | reading the group's guesses back gives exactly the guesses written, in order |
| Prediction.WithGuessesKeyed | app/Services/League/PredictionService.php:56 | after the write, the records of the group are, in table order, the old records each carrying its written guess |
| Prediction.CalculatePredictions | app/Services/League/PredictionService.php:18-64 | the stored guesses of the group become its computed guesses and nothing else changes |
| Prediction.Weight | app/Services/League/PredictionService.php:77-81 | a weight is at least 1 and at least 10·points + power/2 + goal difference, and equals one of the two |
| Prediction.Weights | app/Services/League/PredictionService.php:76-84 | one weight per team of the group |
| Prediction.ProbabilitiesBounds | app/Services/League/PredictionService.php:86-90 | every probability lies in [0, 100] and their total is within half a point per team of 100 |
| Prediction.ProbabilitiesNeedNotSumToHundred | app/Services/League/PredictionService.php:86-90 | three equal weights give 33, 33, 33, which sum to 99: no correction is applied |
| Prediction.GroupProbabilities | app/Services/League/PredictionService.php:72-91 | the loop computes the rounded shares of the weights, each in [0, 100] |
| Prediction.GroupPredictionBounds | app/Services/League/PredictionService.php:71-92 | every probability of a group's prediction lies in [0, 100] |
| Prediction.GetPredictions | app/Services/League/PredictionService.php:66-95 | the result is the array keyed by group name that appends each group's probabilities under its name, group after group |
| Prediction.AppendEntries | app/Services/League/PredictionService.php:86-91 | appending a group's entries one at a time under its name is appending the whole list at once |
| Prediction.PredictionTableNames | app/Services/League/PredictionService.php:71-91 | a name has an entry exactly when some group of that name has a team, so a group without teams adds none |
| Prediction.PredictionTableOrder | app/Services/League/PredictionService.php:71-91 | no name has two entries, and names appear in the order of their first group |
| Prediction.PredictionTableLookup | app/Services/League/PredictionService.php:87 | the entry of a name holds the probabilities of every group of that name, one group after another |
| Prediction.PredictionOfUniqueName | app/Services/League/PredictionService.php:71-91 | when no other group shares a group's name, its entry is exactly that group's probability list |
| Collections.AppendUnderLookup | app/Services/League/PredictionService.php:87 | `$a[$k][] = …` lengthens the list under k and leaves every other key's list as it was |
| Collections.AppendUnderKeys | app/Services/League/PredictionService.php:87 | the keys keep their order, and k is added at the end exactly when it is new and something is appended |
| Collections.SortBySizeDescStable | app/Services/League/LeagueSetupService.php:133 | `sortByDesc` on bucket sizes is stable: the buckets of any one size come out in their input order |
| Collections.SortByKeyStable | app/Domain/Scheduler/FixtureGenerator.php:61 | `sortBy` is stable: the elements with any one key come out in their input order |
| Matches.NextUnplayedWeek | app/Repositories/FixtureRepository.php:41-44 | the smallest week holding an unplayed fixture, or none exactly when every fixture is played |
| Matches.PendingPositions | app/Repositories/FixtureRepository.php:46-49 | the positions of exactly the unplayed fixtures of the week, in table order |
| Matches.PendingMatches | app/Repositories/FixtureRepository.php:46-49 | the unplayed fixtures of the week, in table order |
| Matches.RemainingInWeek | app/Repositories/FixtureRepository.php:59-64 | zero exactly when no fixture of the week is unplayed |
| Matches.NextMatch | app/Repositories/FixtureRepository.php:51-57 | the first unplayed fixture of the next unplayed week, or none exactly when no week is unplayed |
| Matches.ExistsUnplayed | app/Repositories/FixtureRepository.php:88-91 | true exactly when some week is unplayed |
| Matches.Scored | app/Services/League/MatchService.php:52-54 | a scored fixture is played with the given goals and keeps its ids, week, day and teams |
| Matches.ScoredAll | app/Services/League/MatchService.php:44-54 | the k-th pending match receives the k-th simulated score |
| Matches.MarkPlayedSpec | app/Services/League/MatchService.php:42-60 | writing scored fixtures back changes exactly the listed positions |
| Matches.PlayWeekTouchesOnlyPending | app/Services/League/MatchService.php:42-60 | playing a week changes only that week's unplayed fixtures, each to its scored self |
| Matches.PlayWeekPlaysPending | app/Services/League/MatchService.php:42-60 | after a week every previously pending fixture of it is played and every other fixture is unchanged |
| Matches.PlayWeekCompletesWeek | app/Services/League/MatchService.php:32-60 | after the next week is played none of it remains, nothing played becomes unplayed, the next unplayed week is later, and fewer fixtures are unplayed |
| Matches.WeekPlayed | app/Services/League/MatchService.php:32-60 | any table that plays exactly the pending fixtures of the next week completes it |
| Matches.RecordsOf | app/Repositories/GroupRepository.php:34-37 | exactly the records of the given teams |
| Matches.PlayMatch | app/Services/League/MatchService.php:58-59 | recording both sides succeeds exactly when both teams have an entry, and keeps the set of teams |
| Matches.Replay | app/Services/League/MatchService.php:185-188 | replaying matches succeeds exactly when every side has an entry |
| Matches.Upsert | app/Services/League/MatchService.php:215-236 | an upsert keeps the stored ids and writes the chosen columns: all statistics and form always, drawn and lost except in a correction save, the guess only in a full save |
| Matches.UpsertConsistent | app/Services/League/MatchService.php:224-235 | an upsert that writes drawn and lost stores a consistent record from a consistent row |
| Matches.SaveRows | app/Services/League/MatchService.php:215-236 | every stored record is updated from its working row by id, and no record is added or removed |
| Matches.RecordMatch | app/Services/League/MatchService.php:58-59 | the two updates of a match succeed exactly when both sides have an entry, and leave the working set one match further |
| Matches.RecordWeek | app/Services/League/MatchService.php:42-60 | the match loop succeeds exactly when every side has an entry; the working set becomes the replay of the week and the fixtures are marked played |
| Matches.PlayWeekMatches | app/Services/League/MatchService.php:37-60 | loading and recording a week gives its replayed working set and its played fixtures |
| Matches.PredictAllChangesOnlyGuesses | app/Services/LeagueService.php:492-495 | recomputing predictions for the groups changes nothing but guesses |
| Matches.PredictGroups | app/Services/LeagueService.php:492-495 | the loop over the groups recomputes each group's guesses in turn |
| Matches.WeekTables | app/Services/League/MatchService.php:65 | after a week the fixtures are the week's scored fixtures and the record count is unchanged |
| Matches.NextWeekPlay | app/Services/League/MatchService.php:30-72 | no unplayed week is the no-week error; any other failure is a missing record; a success names the next unplayed week and scores exactly its pending fixtures |
| Matches.PlayNextWeek | app/Services/League/MatchService.php:30-72 | a failure leaves both tables as they were; a success stores the week's tables with every column |
| Matches.LeaguePlayNextWeek | app/Services/LeagueService.php:434-502 | the same week, saved without the guess column and followed by a new prediction for every group |
| Matches.MatchRowsKeys | app/Services/League/MatchService.php:87-88 | the working set of a match has entries exactly for its two teams that have records |
| Matches.MatchPlay | app/Services/League/MatchService.php:86-113 | fails exactly when a side has no record; otherwise scores only that fixture, keeps the record count, and reports the last match exactly when none of the week remains |
| Matches.MatchPlayTouchesOnlyItsTeams | app/Services/League/MatchService.php:86-109 | one match changes no other fixture and no other team's record |
| Matches.RemainingAfterPlaying | app/Services/League/MatchService.php:112 | playing a pending fixture lowers the week's remaining count by one |
| Matches.IsLastMatchIff | app/Services/League/MatchService.php:112-113 | the match is the last of its week exactly when it was the only pending fixture of the week |
| Matches.PlayNextMatch | app/Services/League/MatchService.php:74-142 | no unplayed week is an error; a missing record is an error; the last match of a week throws from the undefined call and is rolled back; any other match is played and reported |
| Matches.LastMatchOfWeekIsLast | app/Services/League/MatchService.php:112-124 | when one fixture of the week remains, the next match is reported as the last |
| Matches.LastMatchExample | app/Services/League/MatchService.php:115-124 | a one-fixture week with both records present reaches the undefined call |
| Matches.CorrectedPlayNextMatch | app/Services/League/MatchService.php:74-142 | every pending match with both records is played; after the last match of a week the group's guesses are recomputed |
| Matches.CorrectedPlaysLastMatch | app/Services/League/MatchService.php:99-113 | playing the next match always lowers its week's remaining count by one, the last match included |
| Matches.PlayWeeksSizes | app/Services/League/MatchService.php:147-149 | playing week after week keeps the number of fixtures and records |
| Matches.PlayWeeksPlaysEverything | app/Services/League/MatchService.php:147-149 | when the loop ends without error every fixture is played |
| Matches.PlayWeeksInOrder | app/Services/League/MatchService.php:147-149 | the weeks played are strictly increasing, each the next unplayed week at its turn |
| Matches.PlayAllWeeksAlwaysFails | app/Services/League/MatchService.php:152-157 | with any record present, playing all weeks always ends in an error; after a complete loop it is the undefined call |
| Matches.PlayWeeksLoop | app/Services/League/MatchService.php:146-149 | the loop computes the week-by-week outcome |
| Matches.PlayAllWeeks | app/Services/League/MatchService.php:144-164 | the method as written: the loop, then the undefined call for each group |
| Matches.CorrectedPlayAllWeeks | app/Services/League/MatchService.php:144-164 | plays every week, then recomputes every group's guesses when the loop succeeded |
| Matches.LeaguePlayAllWeeks | app/Services/LeagueService.php:679-686 | the monolith plays week after week with its own week finish |
| Correction.FindFixture | app/Repositories/FixtureRepository.php:66-69 | the first fixture with the id, or none exactly when no fixture has it |
| Correction.ResetGroup | app/Repositories/GroupRepository.php:92-105 | every record of the group is zeroed (its guess kept) and every other record is unchanged |
| Correction.PlayedByWeek | app/Repositories/FixtureRepository.php:71-77 | exactly the played fixtures of the group, each as often as in the table, in non-decreasing week order |
| Correction.Loaded | app/Services/League/MatchService.php:181-183 | the loaded records come from the table and include every record of the group |
| Correction.Recalculated | app/Services/League/MatchService.php:166-194 | an unknown id is the not-found error, any other failure a missing record; a success stores the fixture with the new score and keeps the record count |
| Correction.ReplayMatches | app/Services/League/MatchService.php:185-188 | the replay loop succeeds exactly when every side has an entry, leaving the replayed working set |
| Correction.Recalculate | app/Services/League/MatchService.php:166-194 | a failure leaves both tables; a success stores the recalculated tables |
| Correction.UpdateMatchAndRecalculate | app/Services/League/MatchService.php:166-194 | the split service's correction as written: an unknown id is the not-found error; a found fixture reaches `getPlayedMatchesByGroup` with the group's UUID, which its `int` parameter refuses, so it always fails and both tables stay as they were |
| Correction.CorrectedUpdateMatchAndRecalculate | app/Services/League/MatchService.php:166-194 | the split service's correction with the group's played fixtures loaded by its id, loading the teams' records and saving every column |
| Correction.RecalculatedSucceeds | app/Services/League/MatchService.php:169-190 | a correction of a found fixture succeeds whenever every side of its group's fixtures has a record in the group, for either load scope and column list |
| Correction.ReplayFindsSides | app/Services/League/MatchService.php:180-188 | the replayed fixtures of the group all find both sides in the loaded working set when every side of the group's fixtures has a record in it |
| Correction.LeagueUpdateMatchAndRecalculate | app/Services/LeagueService.php:688-733 | the monolith's correction as written, loading the group's records and saving without drawn, lost and guess |
| Correction.CorrectedLeagueUpdateMatchAndRecalculate | app/Services/LeagueService.php:688-733 | the monolith's correction saving drawn and lost as well |
| Correction.ReplayDerived | app/Services/League/MatchService.php:185-188 | replaying group matches keeps every working row a consistent descendant of its stored record |
| Correction.RecalculatedDependsOn | app/Services/League/MatchService.php:169-190 | the result depends only on the corrected fixture table and the group's reset records |
| Correction.RecalculatedConsistent | app/Services/League/MatchService.php:166-194 | a correction changes no record of another group, and, when it saves drawn and lost, leaves every record of the group consistent |
| Correction.RecalculatedIdempotent | app/Services/League/MatchService.php:166-194 | repeating a correction with the same scores gives the same tables |
| Correction.LeagueCorrectionDropsDrawsAndLosses | app/Services/LeagueService.php:729 | after the monolith's correction every record of the group stores drawn 0 and lost 0 |

## Left out

- Floating-point rating arithmetic is not modelled: team ratings, expected goals, and the probability comparisons inside the goal loops. Each goal-loop comparison is an oracle boolean, and the simulated scores are oracle arguments.
- The random primitives `shuffle`, `array_rand` and `rand` are nondeterministic choices, not distributions.
- Persistence is not modelled as a database. Tables are values, a transaction that throws returns its input tables, and UUIDs are integers (generated ids are positions). The one place where an id's type decides the outcome, the `int` parameter of `getPlayedMatchesByGroup`, is modelled as the error `GroupIdNotInteger`. Timestamps, `Log` and `set_time_limit` are left out.
- The HTTP layer, Eloquent models, migration, seeders, front end, scripts and tests are not part of this model. This covers the `/play-next-match` route without a controller method and the migration's `forms` column name.
- The read-only projections `getFixtures`, `getStandings`, `getGroups` and `getFixturesByWeek` are not modelled: they only reshape rows for display.
- `resetLeague` and `clearGroupAssignments` are not modelled. They are bulk deletes outside the named core.
- Team names and relation loading are not modelled: a prediction entry carries the team id where the source prints the team name. Groups are ordered by name; the draw addresses them by position, and names matter in the model only as the keys of `getPredictions`' result, where groups sharing a name share an entry (see the draw lines below for what the source does with such groups).
- `strength` is not a team column (the table has `power`), so `$team->team->strength` reads as null, which the arithmetic treats as 0. The deployed power score is therefore max(1, 2·goal difference), and points and games played play no part (`PowerScoreWithoutStrength`). The model takes the strength of each team as an integer input, which covers this 0 and generalises it.
- The draw assumes team ids are distinct (`UniqueIds`), and the correction lemmas assume record ids are distinct (`UniqueRecordIds`), as the primary keys guarantee.
- Standings.WorkingSet.ProcessStatsInMemory: requires the team to have an entry. Its callers check that first and model the undefined key as the missing-record error.
- An upsert of a working row whose id is not in the table is not modelled: every working row is loaded from the table.
- Two checks that cannot fail are not modelled: the final throw after `performDraw`'s loop, and "no match in week" in `playNextMatch`, which follows a successful unplayed-week query.
- Matches.NextMatch, Matches.PendingMatches, Correction.PlayedByWeek, Matches.RecordsOf: queries without an `orderBy` return rows in table order in the model, where SQL leaves the order to the database. This covers `first()` of `getNextUnplayedMatch` (`app/Repositories/FixtureRepository.php:51-57`), which decides which pending fixture `playNextMatch` plays; the unordered `get()` of a week's unplayed fixtures (line 48) and of group records (`app/Repositories/GroupRepository.php:31-36`); and fixtures of equal week in `getPlayedMatchesByGroup` (lines 71-77). Fixture ids are random UUIDs, so table order is generation order only in the model. The properties about a whole week (every pending fixture played, the week completed) hold whatever order the database picks; the ones that speak of positions (`ScoredAll`'s k-th match, `NextMatch`'s first fixture) hold for table order.
- Prediction.PowerScore, Prediction.Rounded, Prediction.ArgMaxFirst, Prediction.Weight: prediction arithmetic is exact over the reals, where PHP uses doubles (`strength / 10`, the percentage shares and the weight shares, `app/Services/League/PredictionService.php:36-52` and 77-89). Rounding a share at exactly a half and ties for the maximum power score therefore follow exact values, not doubles: a share within a double's error of k+½ may round the other way in the source, and two scores equal as rationals may differ as doubles, so `array_search(max(...))` may adjust a different team than `ArgMaxFirst`. The sum of 100 and the [0, 100] range do not depend on this.
- Draw.DrawGroups: groups are addressed by position, which assumes their names are distinct, as the setup creates them (A, B, …). The source keys the draw by name (`$assignments[$name]` from `pluck('name')`, `LeagueSetupService.php:100-162`), and `groups.name` is a one-character column without a unique index. Groups sharing a name would share one member list, with two seeds and one capacity of four between them, so the draw would normally fail all 100 attempts. A draw that did succeed would save every team of that name to the first such group (`firstWhere('name')`, line 179). The model does not capture either outcome.
- Draw.LeagueDrawGroups: the same distinct-names assumption; the monolith keys its draw by name in the same way (`LeagueService.php:78-81`, 121, 149 and 209).
- Draw.SaveToDB: assumes distinct group names; with a repeated name the source's `firstWhere('name')` (`LeagueSetupService.php:179`) saves the teams of every group of that name to the first one, while the model saves each position's teams to its own group.
- Draw.RegistrationsGroups: states that each record carries the id of the group at its team's position, which is the source's group only when group names are distinct (see Draw.SaveToDB).
- The monolith's `playNextWeek` (`LeaguePlayNextWeek`) writes the played fixtures in a second loop (`LeagueService.php:464-471`); that loop is merged into the first, which is equivalent under rollback.
- Prediction.GuessesSumToHundred, Prediction.NormalisedSum, Prediction.GroupGuesses: the sum of 100 is proved only for groups of at most 200 teams. The proof bounds the rounding drift by half a point per team, and that bound keeps the rounded total positive only up to this size. The draw makes groups of four.
- Prediction.GuessesArePercentages, Prediction.NormalisedPercentages, Prediction.GroupGuesses: the [0, 100] range is proved only for groups of at most four teams, the size the draw makes. The drift argument used for the bound does not extend to large groups.
- Matches.CorrectedPlayAllWeeks: the final `saveStats` over the reloaded records is taken to write back only the recomputed guesses. Every other column it would write already holds the stored value.

## Findings

| source | as written | input that shows it | evidently intended | confidence | as-written member | corrected member |
|---|---|---|---|---|---|---|
| app/Services/League/MatchService.php:122 | the last match of a week calls `calculatePredictionsInMemory`, which the prediction service does not define, so the transaction throws and the match is rolled back | one unplayed fixture in the next week with both teams registered | update the group's guesses and save the match | not executed | Matches.PlayNextMatch, Matches.LastMatchExample | Matches.CorrectedPlayNextMatch, Matches.CorrectedPlaysLastMatch |
| app/Services/League/MatchService.php:156 | after the week loop, `playAllWeeks` calls the same undefined method for every group, so it always throws once any record exists | any table with one registered team | recompute every group's guesses and return the weeks played | not executed | Matches.PlayAllWeeks, Matches.PlayAllWeeksAlwaysFails | Matches.CorrectedPlayAllWeeks |
| app/Services/League/MatchService.php:180 | `getPlayedMatchesByGroup` declares its parameter `int`, but the group id is a UUID string, so the call throws (a type error, or a warning that the framework turns into an exception) and the correction is always rolled back | any fixture that exists, corrected to any score | load the group's played fixtures by its id, replay them and save | not executed | Correction.UpdateMatchAndRecalculate | Correction.CorrectedUpdateMatchAndRecalculate, Correction.RecalculatedSucceeds |
| app/Services/LeagueService.php:729 | the correction's upsert omits `drawn` and `lost`, which were zeroed, so they stay 0 after a correction | any played group with a drawn or lost match, then a correction | save drawn and lost with the other statistics | not executed | Correction.LeagueUpdateMatchAndRecalculate, Correction.LeagueCorrectionDropsDrawsAndLosses | Correction.CorrectedLeagueUpdateMatchAndRecalculate, Correction.RecalculatedConsistent |
