/**
 * The championship-probability normaliser: a power score per team, percentages of
 * the group total rounded to integers, and one drift correction so that the stored
 * guesses of a group add up to 100. Real numbers here are exact rationals.
 */
module Prediction {
  import opened Model
  import opened Collections

  /** Below this many games played by every team, predictions are withheld. */
  const GateGames: int := 4

  /** Games each team plays in the group stage. */
  const SeasonGames: int := 6

  /** PHP's round(): the nearest integer, halves rounded away from zero. */
  function Round(x: real): (r: int)
    ensures x - 0.5 <= r as real <= x + 0.5
    ensures x >= 0.0 ==> r >= 0 && x - 0.5 < r as real
    ensures x < 0.0 ==> r <= 0 && r as real < x + 0.5
  {
    if x >= 0.0 then (x + 0.5).Floor else - (0.5 - x).Floor
  }

  lemma RoundExamples()
    ensures Round(2.5) == 3 && Round(-2.5) == -3 && Round(2.49) == 2 && Round(0.0) == 0
  {
  }

  function Sum(xs: seq<real>): real
  {
    if xs == [] then 0.0 else Sum(xs[..|xs| - 1]) + xs[|xs| - 1]
  }

  function IntSum(xs: seq<int>): int
  {
    if xs == [] then 0 else IntSum(xs[..|xs| - 1]) + xs[|xs| - 1]
  }

  /** A sum of values all at most b is at most |xs| times b. */
  lemma {:induction false} SumAtMost(xs: seq<real>, b: real)
    requires forall i :: 0 <= i < |xs| ==> xs[i] <= b
    ensures Sum(xs) <= |xs| as real * b
  {
    if xs != [] {
      SumAtMost(xs[..|xs| - 1], b);
    }
  }

  /** A sum of values all at least 1 is at least the count, and at least each value. */
  lemma {:induction false} SumAtLeast(xs: seq<real>, k: nat)
    requires forall i :: 0 <= i < |xs| ==> xs[i] >= 1.0
    requires k < |xs|
    ensures Sum(xs) >= |xs| as real
    ensures Sum(xs) >= xs[k]
  {
    if |xs| > 1 {
      if k < |xs| - 1 {
        SumAtLeast(xs[..|xs| - 1], k);
      } else {
        SumAtLeast(xs[..|xs| - 1], 0);
      }
    }
  }

  /** A sum of non-negative integers is at least each of them. */
  lemma {:induction false} IntSumAtLeast(xs: seq<int>, k: nat)
    requires forall i :: 0 <= i < |xs| ==> xs[i] >= 0
    requires k < |xs|
    ensures IntSum(xs) >= xs[k]
  {
    if k < |xs| - 1 {
      IntSumAtLeast(xs[..|xs| - 1], k);
    } else if |xs| > 1 {
      IntSumNonNegative(xs[..|xs| - 1]);
    }
  }

  lemma {:induction false} IntSumNonNegative(xs: seq<int>)
    requires forall i :: 0 <= i < |xs| ==> xs[i] >= 0
    ensures IntSum(xs) >= 0
  {
    if xs != [] {
      IntSumNonNegative(xs[..|xs| - 1]);
    }
  }

  /** Changing one entry changes the sum by the difference. */
  lemma {:induction false} IntSumUpdate(xs: seq<int>, k: nat, v: int)
    requires k < |xs|
    ensures IntSum(xs[k := v]) == IntSum(xs) - xs[k] + v
  {
    if k < |xs| - 1 {
      assert xs[k := v][..|xs| - 1] == xs[..|xs| - 1][k := v];
      IntSumUpdate(xs[..|xs| - 1], k, v);
    } else {
      assert xs[k := v][..|xs| - 1] == xs[..|xs| - 1];
    }
  }

  /** The share of w in a total T, in percent; 0 when the total is not positive. */
  function Percent(w: real, total: real): real
  {
    if total > 0.0 then w / total * 100.0 else 0.0
  }

  /** Each value's percentage of `total`, rounded. */
  function Rounded(ws: seq<real>, total: real): (r: seq<int>)
    ensures |r| == |ws|
    ensures forall i :: 0 <= i < |ws| ==> r[i] == Round(Percent(ws[i], total))
  {
    if ws == [] then []
    else Rounded(ws[..|ws| - 1], total) + [Round(Percent(ws[|ws| - 1], total))]
  }

  /**
   * Rounding drift: the rounded percentages of values summing to S add up to within
   * half a point per value of S / total * 100.
   */
  lemma {:induction false} RoundedDrift(ws: seq<real>, total: real)
    requires total > 0.0
    ensures IntSum(Rounded(ws, total)) as real <= Sum(ws) / total * 100.0 + |ws| as real / 2.0
    ensures IntSum(Rounded(ws, total)) as real >= Sum(ws) / total * 100.0 - |ws| as real / 2.0
  {
    if ws != [] {
      var init := ws[..|ws| - 1];
      var last := ws[|ws| - 1];
      RoundedDrift(init, total);
      var ri, x := Rounded(init, total), Round(Percent(last, total));
      assert Rounded(ws, total) == ri + [x];
      IntSumSnoc(ri, x);
      ShareOfSum(Sum(init), last, total);
      DriftStep(IntSum(ri), x, Sum(init) / total * 100.0, Percent(last, total), |init| as real);
    }
  }

  /** Drift of at most n/2 so far and at most 1/2 for one more rounding: at most (n + 1)/2 in all. */
  lemma DriftStep(prev: int, r: int, s: real, p: real, n: real)
    requires s - n / 2.0 <= prev as real <= s + n / 2.0
    requires p - 0.5 <= r as real <= p + 0.5
    ensures s + p - (n + 1.0) / 2.0 <= (prev + r) as real <= s + p + (n + 1.0) / 2.0
  {
  }

  /** Percentages of a total add up. */
  lemma ShareOfSum(a: real, b: real, total: real)
    requires total > 0.0
    ensures (a + b) / total * 100.0 == a / total * 100.0 + Percent(b, total)
  {
  }

  /** The first index holding the largest value (`array_search(max($a), $a)`). */
  function ArgMaxFirst(ws: seq<real>): (m: nat)
    requires |ws| > 0
    ensures m < |ws|
    ensures forall i :: 0 <= i < |ws| ==> ws[i] <= ws[m]
    ensures forall j :: 0 <= j < m ==> ws[j] < ws[m]
  {
    if |ws| == 1 then 0
    else
      var k := ArgMaxFirst(ws[..|ws| - 1]);
      if ws[|ws| - 1] > ws[k] then |ws| - 1 else k
  }

  /** A team's score before the floor of 1 is applied. */
  function RawPower(s: Standing, strength: int): real
  {
    var f := strength as real / 10.0;
    ((s.points * s.points) as real + (SeasonGames - s.played) as real * f) * f + (2 * s.goalDifference) as real
  }

  /** The power score: the raw score, but never below 1. */
  function PowerScore(s: Standing, strength: int): (p: real)
    ensures p >= 1.0 && p >= RawPower(s, strength)
    ensures p == 1.0 || p == RawPower(s, strength)
  {
    var raw := RawPower(s, strength);
    if raw > 1.0 then raw else 1.0
  }

  /**
   * With strength 0, the value a missing team column reads as, the power score is the
   * doubled goal difference floored at 1: points and games played play no part.
   */
  lemma PowerScoreWithoutStrength(s: Standing)
    ensures PowerScore(s, 0) == if 2 * s.goalDifference >= 1 then (2 * s.goalDifference) as real else 1.0
  {
    assert RawPower(s, 0) == (2 * s.goalDifference) as real;
  }

  /** With non-negative points and strength, more points never lower the power score. */
  lemma PowerScoreMonotone(s: Standing, strength: int, morePoints: int)
    requires 0 <= s.points <= morePoints && strength >= 0
    ensures PowerScore(s, strength) <= PowerScore(s.(points := morePoints), strength)
  {
    var f := strength as real / 10.0;
    var c := (SeasonGames - s.played) as real * f;
    var d := (2 * s.goalDifference) as real;
    SquareMonotone(s.points, morePoints);
    RawMonotone((s.points * s.points) as real, (morePoints * morePoints) as real, c, f, d);
  }

  lemma SquareMonotone(p: int, q: int)
    requires 0 <= p <= q
    ensures p * p <= q * q
  {
    assert p * p <= p * q <= q * q;
  }

  lemma RawMonotone(a: real, b: real, c: real, f: real, d: real)
    requires a <= b && f >= 0.0
    ensures (a + c) * f + d <= (b + c) * f + d
  {
    assert (a + c) * f <= (b + c) * f;
  }

  /** The power scores of a group's records; `strength` gives each team's strength. */
  function Powers(teams: seq<Standing>, strength: TeamId -> int): (ps: seq<real>)
    ensures |ps| == |teams|
    ensures forall i :: 0 <= i < |teams| ==> ps[i] == PowerScore(teams[i], strength(teams[i].teamId))
  {
    if teams == [] then []
    else Powers(teams[..|teams| - 1], strength) + [PowerScore(teams[|teams| - 1], strength(teams[|teams| - 1].teamId))]
  }

  /** Predictions are withheld while `max('played')` is below 4 (also for an empty group). */
  predicate Gated(teams: seq<Standing>)
  {
    forall i :: 0 <= i < |teams| ==> teams[i].played < GateGames
  }

  /** n zero guesses (`resetPredictionsForGroup`). */
  function Zeros(n: nat): (z: seq<int>)
    ensures |z| == n && forall i :: 0 <= i < n ==> z[i] == 0
  {
    if n == 0 then [] else Zeros(n - 1) + [0]
  }

  /**
   * The guesses a group ends with: all 0 while gated; otherwise the rounded shares
   * of the power scores, with 100 minus their total added to the first strongest
   * team when that total is positive and not already 100.
   */
  function Guesses(teams: seq<Standing>, strength: TeamId -> int): (g: seq<int>)
    ensures |g| == |teams|
  {
    if Gated(teams) then Zeros(|teams|) else Normalised(Powers(teams, strength))
  }

  /**
   * The rounded percentages of the scores, with the drift 100 - total added to the
   * first largest score when the rounded total is positive and not 100.
   */
  function Normalised(ps: seq<real>): (g: seq<int>)
    requires |ps| > 0
    ensures |g| == |ps|
  {
    Adjusted(Rounded(ps, Sum(ps)), ArgMaxFirst(ps))
  }

  /** The rounded shares r with the drift 100 - total added to entry m when the total is positive and not 100. */
  function Adjusted(r: seq<int>, m: nat): (g: seq<int>)
    requires m < |r|
    ensures |g| == |r|
  {
    var total := IntSum(r);
    if total != 100 && total > 0 then r[m := r[m] + 100 - total] else r
  }

  /** Only the first largest score can differ from its rounded share, by exactly the drift. */
  lemma NormalisedAdjustsFirstStrongest(ps: seq<real>)
    requires |ps| > 0
    ensures var r := Rounded(ps, Sum(ps));
      var m := ArgMaxFirst(ps);
      && (forall i :: 0 <= i < |ps| && i != m ==> Normalised(ps)[i] == r[i])
      && Normalised(ps)[m] == if IntSum(r) != 100 && IntSum(r) > 0 then 100 - (IntSum(r) - r[m]) else r[m]
  {
    AdjustOne(Rounded(ps, Sum(ps)), ArgMaxFirst(ps));
  }

  /** The drift correction changes at most entry m, and changes it by exactly the drift. */
  lemma AdjustOne(r: seq<int>, m: nat)
    requires m < |r|
    ensures forall i :: 0 <= i < |r| && i != m ==> Adjusted(r, m)[i] == r[i]
    ensures Adjusted(r, m)[m] == if IntSum(r) != 100 && IntSum(r) > 0 then 100 - (IntSum(r) - r[m]) else r[m]
  {
  }

  /**
   * The largest score is at least the average, so its share of the total is at
   * least 100 / n percent, hence at least any bound b with n * b <= 100.
   */
  lemma {:induction false} StrongestShare(ps: seq<real>, bound: real)
    requires |ps| > 0 && forall i :: 0 <= i < |ps| ==> ps[i] >= 1.0
    requires |ps| as real * bound <= 100.0
    ensures Sum(ps) > 0.0
    ensures Percent(ps[ArgMaxFirst(ps)], Sum(ps)) >= bound
  {
    var m := ArgMaxFirst(ps);
    var t := Sum(ps);
    SumAtMost(ps, ps[m]);
    SumAtLeast(ps, m);
    AverageShare(ps[m], t, |ps| as real);
    DivideOut(Percent(ps[m], t), |ps| as real, bound);
  }

  lemma DivideOut(x: real, n: real, bound: real)
    requires n > 0.0 && x * n >= 100.0 && n * bound <= 100.0
    ensures x >= bound
  {
    assert x * n >= bound * n;
  }

  /** Every score of at least 1 has a share in (0, 100] of the total. */
  lemma SharesArePercentages(ps: seq<real>)
    requires forall i :: 0 <= i < |ps| ==> ps[i] >= 1.0
    ensures forall i :: 0 <= i < |ps| ==> 0.0 < Percent(ps[i], Sum(ps)) <= 100.0
  {
    forall i | 0 <= i < |ps| ensures 0.0 < Percent(ps[i], Sum(ps)) <= 100.0 {
      SumAtLeast(ps, i);
      ShareBounds(ps[i], Sum(ps));
    }
  }

  lemma ShareBounds(w: real, total: real)
    requires 0.0 < w <= total
    ensures 0.0 < Percent(w, total) <= 100.0
  {
    assert w / total <= 1.0;
  }

  lemma AverageShare(w: real, total: real, n: real)
    requires total > 0.0 && n >= 1.0 && n * w >= total
    ensures Percent(w, total) * n >= 100.0
  {
    assert Percent(w, total) * n == (n * w) / total * 100.0;
    assert (n * w) / total >= 1.0;
  }

  /** The rounded shares of a positive-score group add up to 100 within half a point per team. */
  lemma RoundedSharesNearHundred(ps: seq<real>)
    requires |ps| > 0 && forall i :: 0 <= i < |ps| ==> ps[i] >= 1.0
    ensures var total := IntSum(Rounded(ps, Sum(ps)));
      100.0 - |ps| as real / 2.0 <= total as real <= 100.0 + |ps| as real / 2.0
  {
    SumAtLeast(ps, 0);
    RoundedDrift(ps, Sum(ps));
    WholeShare(Sum(ps));
  }

  lemma WholeShare(total: real)
    requires total > 0.0
    ensures total / total * 100.0 == 100.0
  {
  }

  /** Past the gate, a group of at most 200 teams has guesses that add up to exactly 100. */
  lemma GuessesSumToHundred(teams: seq<Standing>, strength: TeamId -> int)
    requires !Gated(teams) && |teams| <= 200
    ensures IntSum(Guesses(teams, strength)) == 100
  {
    NormalisedSum(Powers(teams, strength));
  }

  /** With 1 to 200 scores of at least 1, the normalised percentages add up to exactly 100. */
  lemma NormalisedSum(ps: seq<real>)
    requires 0 < |ps| <= 200 && forall i :: 0 <= i < |ps| ==> ps[i] >= 1.0
    ensures IntSum(Normalised(ps)) == 100
  {
    var t := Sum(ps);
    var r := Rounded(ps, t);
    var m := ArgMaxFirst(ps);
    var total := IntSum(r);
    StrongestShare(ps, 0.5);
    SharesArePercentages(ps);
    forall i | 0 <= i < |r| ensures 0 <= r[i] <= 100 {
      RoundPercent(Percent(ps[i], t));
    }
    RoundPercent(Percent(ps[m], t));
    IntSumAtLeast(r, m);
    if total != 100 {
      IntSumUpdate(r, m, r[m] + 100 - total);
    }
  }

  /** A rounded percentage is an integer percentage, and one of at least b (b >= 1/2) is at least 1. */
  lemma RoundPercent(x: real)
    requires 0.0 <= x <= 100.0
    ensures 0 <= Round(x) <= 100
    ensures x >= 0.5 ==> Round(x) >= 1
    ensures x >= 25.0 ==> Round(x) >= 25
  {
  }

  /** Past the gate, in a group of at most four teams every final guess is a percentage. */
  lemma GuessesArePercentages(teams: seq<Standing>, strength: TeamId -> int)
    requires !Gated(teams) && |teams| <= 4
    ensures forall i :: 0 <= i < |teams| ==> 0 <= Guesses(teams, strength)[i] <= 100
  {
    NormalisedPercentages(Powers(teams, strength));
  }

  /** With 1 to 4 scores of at least 1, every normalised value lies in [0, 100]. */
  lemma NormalisedPercentages(ps: seq<real>)
    requires 0 < |ps| <= 4 && forall i :: 0 <= i < |ps| ==> ps[i] >= 1.0
    ensures forall i :: 0 <= i < |ps| ==> 0 <= Normalised(ps)[i] <= 100
  {
    var t := Sum(ps);
    var r := Rounded(ps, t);
    var m := ArgMaxFirst(ps);
    var total := IntSum(r);
    SharesArePercentages(ps);
    forall i | 0 <= i < |r| ensures 0 <= r[i] <= 100 {
      RoundPercent(Percent(ps[i], t));
    }
    if total != 100 && total > 0 {
      StrongestShare(ps, 25.0);
      RoundPercent(Percent(ps[m], t));
      RoundedSharesNearHundred(ps);
      IntSumAtLeast(r, m);
    }
  }

  /** The first loop of `calculatePredictions`: each record's power score, and their total. */
  method PowerScores(teams: seq<Standing>, strength: TeamId -> int) returns (powers: seq<real>, total: real)
    ensures powers == Powers(teams, strength)
    ensures total == Sum(powers)
  {
    total := 0.0;
    powers := [];
    for i := 0 to |teams|
      invariant powers == Powers(teams[..i], strength)
      invariant total == Sum(powers)
    {
      var powerScore := PowerScore(teams[i], strength(teams[i].teamId));
      PowersSnoc(teams, i, strength);
      SumSnoc(powers, powerScore);
      powers := powers + [powerScore];
      total := total + powerScore;
    }
    assert teams[..|teams|] == teams;
  }

  lemma PowersSnoc(teams: seq<Standing>, i: nat, strength: TeamId -> int)
    requires i < |teams|
    ensures Powers(teams[..i + 1], strength) == Powers(teams[..i], strength) + [PowerScore(teams[i], strength(teams[i].teamId))]
  {
    assert teams[..i + 1][..i] == teams[..i];
  }

  lemma SumSnoc(xs: seq<real>, x: real)
    ensures Sum(xs + [x]) == Sum(xs) + x
  {
    assert (xs + [x])[..|xs|] == xs;
  }

  /** The second loop: each score's rounded percentage of the total, and their running sum. */
  method RoundedShares(scores: seq<real>, total: real) returns (rounded: seq<int>, currentTotal: int)
    ensures rounded == Rounded(scores, total)
    ensures currentTotal == IntSum(rounded)
  {
    currentTotal := 0;
    rounded := [];
    for i := 0 to |scores|
      invariant rounded == Rounded(scores[..i], total)
      invariant currentTotal == IntSum(rounded)
    {
      var r := Round(Percent(scores[i], total));
      RoundedSnoc(scores, i, total);
      IntSumSnoc(rounded, r);
      currentTotal := currentTotal + r;
      rounded := rounded + [r];
    }
    assert scores[..|scores|] == scores;
  }

  lemma RoundedSnoc(scores: seq<real>, i: nat, total: real)
    requires i < |scores|
    ensures Rounded(scores[..i + 1], total) == Rounded(scores[..i], total) + [Round(Percent(scores[i], total))]
  {
    assert scores[..i + 1][..i] == scores[..i];
  }

  lemma IntSumSnoc(xs: seq<int>, x: int)
    ensures IntSum(xs + [x]) == IntSum(xs) + x
  {
    assert (xs + [x])[..|xs|] == xs;
  }

  /**
   * `calculatePredictions` for one group's records: the gate, the power scores, the
   * rounded shares, and the correction of the first strongest team.
   */
  method GroupGuesses(teams: seq<Standing>, strength: TeamId -> int) returns (guesses: seq<int>)
    ensures guesses == Guesses(teams, strength)
    ensures Gated(teams) ==> forall i :: 0 <= i < |teams| ==> guesses[i] == 0
    ensures !Gated(teams) && |teams| <= 200 ==> IntSum(guesses) == 100
    ensures !Gated(teams) && |teams| <= 4 ==> forall i :: 0 <= i < |teams| ==> 0 <= guesses[i] <= 100
  {
    if forall i :: 0 <= i < |teams| ==> teams[i].played < GateGames {
      guesses := Zeros(|teams|);
      return;
    }
    var powers, totalPowerScores := PowerScores(teams, strength);
    var currentTotal;
    guesses, currentTotal := RoundedShares(powers, totalPowerScores);
    if currentTotal != 100 && currentTotal > 0 {
      var highest := ArgMaxFirst(powers);
      guesses := guesses[highest := guesses[highest] + (100 - currentTotal)];
    }
    assert guesses == Normalised(powers);
    if |teams| <= 200 {
      GuessesSumToHundred(teams, strength);
    }
    if |teams| <= 4 {
      GuessesArePercentages(teams, strength);
    }
  }

  /** The records of `records` with the guesses of group g's records replaced, in order. */
  function WithGuesses(records: seq<Standing>, g: GroupId, guesses: seq<int>): (r: seq<Standing>)
    requires |guesses| == |WithKey(records, GroupOf, g)|
    ensures |r| == |records|
    ensures forall i :: 0 <= i < |records| ==> r[i] == records[i].(guess := r[i].guess)
    ensures forall i :: 0 <= i < |records| && records[i].groupId != g ==> r[i] == records[i]
  {
    if records == [] then []
    else if records[0].groupId == g then
      [records[0].(guess := guesses[0])] + WithGuesses(records[1..], g, guesses[1..])
    else [records[0]] + WithGuesses(records[1..], g, guesses)
  }

  /** The guesses of the records of group g, in table order. */
  function GuessesIn(records: seq<Standing>, g: GroupId): (gs: seq<int>)
    ensures |gs| == |WithKey(records, GroupOf, g)|
  {
    if records == [] then []
    else (if records[0].groupId == g then [records[0].guess] else []) + GuessesIn(records[1..], g)
  }

  /** The first record written, then the rest written with the remaining guesses. */
  lemma WithGuessesUnfold(records: seq<Standing>, g: GroupId, guesses: seq<int>)
    requires records != [] && |guesses| == |WithKey(records, GroupOf, g)|
    ensures var r := WithGuesses(records, g, guesses);
      && r[0] == (if records[0].groupId == g then records[0].(guess := guesses[0]) else records[0])
      && r[1..] == WithGuesses(records[1..], g, if records[0].groupId == g then guesses[1..] else guesses)
  {
    if records[0].groupId == g {
      TailOfCons(records[0].(guess := guesses[0]), WithGuesses(records[1..], g, guesses[1..]));
    } else {
      TailOfCons(records[0], WithGuesses(records[1..], g, guesses));
    }
  }

  /** After writing, group g's records are the old ones carrying the written guesses, in order. */
  lemma {:induction false} WithGuessesKeyed(records: seq<Standing>, g: GroupId, guesses: seq<int>)
    requires |guesses| == |WithKey(records, GroupOf, g)|
    ensures |WithKey(WithGuesses(records, g, guesses), GroupOf, g)| == |guesses|
    ensures forall i :: 0 <= i < |guesses| ==>
      WithKey(WithGuesses(records, g, guesses), GroupOf, g)[i] == WithKey(records, GroupOf, g)[i].(guess := guesses[i])
  {
    if records != [] {
      var r := WithGuesses(records, g, guesses);
      var rest := if records[0].groupId == g then guesses[1..] else guesses;
      WithGuessesUnfold(records, g, guesses);
      WithGuessesKeyed(records[1..], g, rest);
      var before := WithKey(records, GroupOf, g);
      var after := WithKey(r, GroupOf, g);
      var head := if records[0].groupId == g then 1 else 0;
      assert after == (if head == 1 then [r[0]] else []) + WithKey(r[1..], GroupOf, g);
      assert before == (if head == 1 then [records[0]] else []) + WithKey(records[1..], GroupOf, g);
      forall i | 0 <= i < |guesses| ensures after[i] == before[i].(guess := guesses[i]) {
        if i >= head {
          assert after[i] == WithKey(r[1..], GroupOf, g)[i - head];
          assert before[i] == WithKey(records[1..], GroupOf, g)[i - head];
          assert guesses[i] == rest[i - head];
        }
      }
    }
  }

  /** Reading the guesses of group g back gives exactly the written guesses, in order. */
  lemma {:induction false} WithGuessesReadBack(records: seq<Standing>, g: GroupId, guesses: seq<int>)
    requires |guesses| == |WithKey(records, GroupOf, g)|
    ensures GuessesIn(WithGuesses(records, g, guesses), g) == guesses
  {
    if records != [] {
      var r := WithGuesses(records, g, guesses);
      var rest := if records[0].groupId == g then guesses[1..] else guesses;
      WithGuessesUnfold(records, g, guesses);
      WithGuessesReadBack(records[1..], g, rest);
      if records[0].groupId == g {
        assert guesses == [guesses[0]] + rest;
      }
    }
  }

  /**
   * `calculatePredictions(groupId)` on the `group_teams` table: computes the group's
   * guesses and stores them on the group's records; no other column or record changes.
   */
  method CalculatePredictions(records: seq<Standing>, g: GroupId, strength: TeamId -> int)
    returns (updated: seq<Standing>)
    ensures updated == WithGuesses(records, g, Guesses(WithKey(records, GroupOf, g), strength))
    ensures GuessesIn(updated, g) == Guesses(WithKey(records, GroupOf, g), strength)
  {
    var teams := WithKey(records, GroupOf, g);
    var guesses := GroupGuesses(teams, strength);
    updated := WithGuesses(records, g, guesses);
    WithGuessesReadBack(records, g, guesses);
  }

  /** The advisory weight of a record: 10 per point, half the team power, plus goal difference, at least 1. */
  function Weight(s: Standing, power: int): (w: real)
    ensures w >= 1.0
    ensures w >= (10 * s.points) as real + power as real * 0.5 + s.goalDifference as real
    ensures w == 1.0 || w == (10 * s.points) as real + power as real * 0.5 + s.goalDifference as real
  {
    var raw := (s.points * 10) as real + power as real * 0.5 + s.goalDifference as real;
    if 1.0 > raw then 1.0 else raw
  }

  function Weights(teams: seq<Standing>, power: TeamId -> int): (ws: seq<real>)
    ensures |ws| == |teams|
    ensures forall i :: 0 <= i < |teams| ==> ws[i] == Weight(teams[i], power(teams[i].teamId))
  {
    if teams == [] then []
    else Weights(teams[..|teams| - 1], power) + [Weight(teams[|teams| - 1], power(teams[|teams| - 1].teamId))]
  }

  /** Each advisory probability lies in [0, 100], and their total is 100 within half a point per team. */
  lemma ProbabilitiesBounds(teams: seq<Standing>, power: TeamId -> int)
    requires |teams| > 0
    ensures var ws := Weights(teams, power);
      var r := Rounded(ws, Sum(ws));
      && (forall i :: 0 <= i < |r| ==> 0 <= r[i] <= 100)
      && 100.0 - |teams| as real / 2.0 <= IntSum(r) as real <= 100.0 + |teams| as real / 2.0
  {
    var ws := Weights(teams, power);
    var r := Rounded(ws, Sum(ws));
    SharesArePercentages(ws);
    forall i | 0 <= i < |r| ensures 0 <= r[i] <= 100 {
      RoundPercent(Percent(ws[i], Sum(ws)));
    }
    RoundedSharesNearHundred(ws);
  }

  /** Without a sum correction three equally weighted teams get 33 each, 99 in all. */
  lemma ProbabilitiesNeedNotSumToHundred()
    ensures Rounded([1.0, 1.0, 1.0], Sum([1.0, 1.0, 1.0])) == [33, 33, 33]
    ensures IntSum([33, 33, 33]) == 99
  {
    assert Sum([1.0, 1.0, 1.0]) == 3.0 by {
      assert [1.0, 1.0, 1.0][..2] == [1.0, 1.0];
      assert [1.0, 1.0][..1] == [1.0];
      assert [1.0][..0] == [];
    }
    assert Round(1.0 / 3.0 * 100.0) == 33;
    assert [33, 33, 33][..2] == [33, 33];
    assert [33, 33][..1] == [33];
    assert [33][..0] == [];
  }

  /** The advisory probabilities of one group: the weight loop, then the rounded shares. */
  method GroupProbabilities(teams: seq<Standing>, power: TeamId -> int) returns (probabilities: seq<int>)
    ensures probabilities == Rounded(Weights(teams, power), Sum(Weights(teams, power)))
    ensures forall i :: 0 <= i < |probabilities| ==> 0 <= probabilities[i] <= 100
  {
    var totalWeight := 0.0;
    var weights: seq<real> := [];
    for i := 0 to |teams|
      invariant weights == Weights(teams[..i], power)
      invariant totalWeight == Sum(weights)
    {
      assert teams[..i + 1][..i] == teams[..i];
      var weight := Weight(teams[i], power(teams[i].teamId));
      weights := weights + [weight];
      totalWeight := totalWeight + weight;
      assert weights[..|weights| - 1] == Weights(teams[..i], power);
    }
    assert teams[..|teams|] == teams;
    var sum;
    probabilities, sum := RoundedShares(weights, totalWeight);
    if |teams| > 0 {
      ProbabilitiesBounds(teams, power);
    }
  }

  /** The (team, probability) pairs of one group, in table order. */
  function Labelled(teams: seq<Standing>, probabilities: seq<int>): (r: seq<(TeamId, int)>)
    requires |probabilities| == |teams|
    ensures |r| == |teams|
    ensures forall i :: 0 <= i < |teams| ==> r[i] == (teams[i].teamId, probabilities[i])
  {
    if teams == [] then [] else [(teams[0].teamId, probabilities[0])] + Labelled(teams[1..], probabilities[1..])
  }

  /** The advisory (team, probability) list of group g. */
  function GroupPrediction(records: seq<Standing>, g: GroupId, power: TeamId -> int): seq<(TeamId, int)>
  {
    var teams := WithKey(records, GroupOf, g);
    Labelled(teams, Rounded(Weights(teams, power), Sum(Weights(teams, power))))
  }

  /** Every advisory probability of a group lies in [0, 100]. */
  lemma GroupPredictionBounds(records: seq<Standing>, g: GroupId, power: TeamId -> int)
    ensures forall i :: 0 <= i < |GroupPrediction(records, g, power)| ==>
      0 <= GroupPrediction(records, g, power)[i].1 <= 100
  {
    var teams := WithKey(records, GroupOf, g);
    if |teams| > 0 {
      ProbabilitiesBounds(teams, power);
    }
  }

  function NameOf(g: Group): string { g.name }

  /** The prediction list of each group, as a function of the group. */
  function GroupPredictions(records: seq<Standing>, power: TeamId -> int): Group -> seq<(TeamId, int)>
  {
    (g: Group) => GroupPrediction(records, g.id, power)
  }

  /** A group's list is empty exactly when the group has no team. */
  lemma GroupPredictionEmpty(records: seq<Standing>, power: TeamId -> int, g: Group)
    ensures GroupPredictions(records, power)(g) == [] <==> WithKey(records, GroupOf, g.id) == []
  {
    assert |GroupPrediction(records, g.id, power)| == |WithKey(records, GroupOf, g.id)|;
  }

  /**
   * The array `getPredictions` returns: keyed by group name, names in order of their
   * first entry, each group's probabilities under its name.
   */
  function PredictionTable(groups: seq<Group>, records: seq<Standing>, power: TeamId -> int)
    : seq<(string, seq<(TeamId, int)>)>
  {
    KeyedLists(groups, NameOf, GroupPredictions(records, power))
  }

  /** A name has an entry exactly when some group of that name has a team: a group without teams adds none. */
  lemma PredictionTableNames(groups: seq<Group>, records: seq<Standing>, power: TeamId -> int, n: string)
    ensures n in KeysOf(PredictionTable(groups, records, power)) <==>
      exists k :: 0 <= k < |groups| && groups[k].name == n && WithKey(records, GroupOf, groups[k].id) != []
  {
    KeyedListsKeys(groups, NameOf, GroupPredictions(records, power), n);
    forall k | 0 <= k < |groups| {
      GroupPredictionEmpty(records, power, groups[k]);
    }
  }

  /** No name has two entries, and the names of the first k groups come first, in the same order. */
  lemma PredictionTableOrder(groups: seq<Group>, records: seq<Standing>, power: TeamId -> int, k: nat)
    requires k <= |groups|
    ensures NoDuplicates(KeysOf(PredictionTable(groups, records, power)))
    ensures KeysOf(PredictionTable(groups[..k], records, power)) <= KeysOf(PredictionTable(groups, records, power))
  {
    KeyedListsUnique(groups, NameOf, GroupPredictions(records, power));
    KeyedListsOrder(groups, NameOf, GroupPredictions(records, power), k);
  }

  /** The list under a name holds the probabilities of every group of that name, in group order. */
  lemma PredictionTableLookup(groups: seq<Group>, records: seq<Standing>, power: TeamId -> int, n: string)
    ensures Lookup(PredictionTable(groups, records, power), n) == ListsUnder(groups, NameOf, GroupPredictions(records, power), n)
  {
    KeyedListsLookup(groups, NameOf, GroupPredictions(records, power), n);
  }

  /** With every group named differently, as the draw names them, each name holds exactly its group's probabilities. */
  lemma PredictionOfUniqueName(groups: seq<Group>, records: seq<Standing>, power: TeamId -> int, k: nat)
    requires k < |groups|
    requires forall j :: 0 <= j < |groups| && j != k ==> groups[j].name != groups[k].name
    ensures Lookup(PredictionTable(groups, records, power), groups[k].name) == GroupPrediction(records, groups[k].id, power)
  {
    KeyedListsLookup(groups, NameOf, GroupPredictions(records, power), groups[k].name);
    ListsUnderUnique(groups, NameOf, GroupPredictions(records, power), k);
  }

  /** The inner loop of `getPredictions`: each entry of a group's list appended under its name in turn. */
  method AppendEntries(predictions: seq<(string, seq<(TeamId, int)>)>, name: string, groupResults: seq<(TeamId, int)>)
    returns (r: seq<(string, seq<(TeamId, int)>)>)
    ensures r == AppendUnder(predictions, name, groupResults)
  {
    r := predictions;
    for i := 0 to |groupResults|
      invariant r == AppendUnder(predictions, name, groupResults[..i])
    {
      AppendUnderTwice(predictions, name, groupResults[..i], [groupResults[i]]);
      PrefixSnoc(groupResults, i);
      r := AppendUnder(r, name, [groupResults[i]]);
    }
    assert groupResults[..|groupResults|] == groupResults;
  }

  /**
   * `getPredictions`: for each group in turn, each of its teams' probabilities is
   * appended under the group's name.
   */
  method GetPredictions(groups: seq<Group>, records: seq<Standing>, power: TeamId -> int)
    returns (predictions: seq<(string, seq<(TeamId, int)>)>)
    ensures predictions == PredictionTable(groups, records, power)
  {
    predictions := [];
    for k := 0 to |groups|
      invariant predictions == KeyedLists(groups[..k], NameOf, GroupPredictions(records, power))
    {
      var teams := WithKey(records, GroupOf, groups[k].id);
      var probabilities := GroupProbabilities(teams, power);
      var groupResults := Labelled(teams, probabilities);
      assert groupResults == GroupPredictions(records, power)(groups[k]);
      KeyedListsStep(groups, NameOf, GroupPredictions(records, power), k);
      predictions := AppendEntries(predictions, groups[k].name, groupResults);
    }
    assert groups[..|groups|] == groups;
  }
}
