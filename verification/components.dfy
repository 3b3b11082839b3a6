/** The component weighting of the 2016-2024 replay (model_test.py): the running
    per-component score totals, `score_count_to_component_scalers`, and the
    combination of the three component win probabilities into one prediction. */
module Components {
  import opened Wrappers
  import opened RealMath
  import opened Model
  import opened Breakdowns

  /** The season's running totals: points per component over every alliance score
      seen so far, and how many alliance scores that is. */
  datatype ScoreCount = ScoreCount(auto: int, teleop: int, endgame: int, count: int) {
    function Total(): int {
      auto + teleop + endgame
    }
  }

  const EMPTY_COUNT: ScoreCount := ScoreCount(0, 0, 0, 0)

  /** One match's update: each component gains both alliances' points and the count
      grows by two. */
  function CountMatch(sc: ScoreCount, split: MatchSplit): (r: ScoreCount)
    ensures r.auto == sc.auto + split.red.auto + split.blue.auto
    ensures r.teleop == sc.teleop + split.red.teleop + split.blue.teleop
    ensures r.endgame == sc.endgame + split.red.endgame + split.blue.endgame
    ensures r.count == sc.count + 2
    ensures r.Total() == sc.Total() + split.red.Total() + split.blue.Total()
  {
    ScoreCount(
      sc.auto + split.red.auto + split.blue.auto,
      sc.teleop + split.red.teleop + split.blue.teleop,
      sc.endgame + split.red.endgame + split.blue.endgame,
      sc.count + 2)
  }

  /** The weight of each component in the combined prediction. */
  datatype Scalers = Scalers(auto: real, teleop: real, endgame: real) {
    function Sum(): real {
      auto + teleop + endgame
    }
  }

  const EVEN_SCALERS: Scalers := Scalers(1.0 / 3.0, 1.0 / 3.0, 1.0 / 3.0)

  /** `score_count_to_component_scalers`: each component's average points over the
      total of the averages; `None` is the ZeroDivisionError of a zero total. */
  function ComponentScalers(sc: ScoreCount): (r: Option<Scalers>)
    ensures r.Some? ==> r.value.Sum() == 1.0
  {
    if sc.count == 0 then Some(EVEN_SCALERS)
    else
      var n := sc.count as real;
      var avg := Scalers(sc.auto as real / n, sc.teleop as real / n, sc.endgame as real / n);
      var total := avg.Sum();
      if total == 0.0 then None
      else
        SharesSum(avg.auto, avg.teleop, avg.endgame, total);
        Some(Scalers(avg.auto / total, avg.teleop / total, avg.endgame / total))
  }

  /** Before any score is counted the components are weighted equally; afterwards
      the division fails exactly when the points total zero, and otherwise each
      weight is that component's share of all points, whatever the count. */
  lemma ComponentScalersSpec(sc: ScoreCount)
    ensures sc.count == 0 ==> ComponentScalers(sc) == Some(EVEN_SCALERS)
    ensures ComponentScalers(sc).None? <==> sc.count != 0 && sc.Total() == 0
    ensures sc.count != 0 && sc.Total() != 0 ==>
              var s := sc.Total() as real;
              ComponentScalers(sc) == Some(Scalers(sc.auto as real / s, sc.teleop as real / s, sc.endgame as real / s))
  {
    if sc.count != 0 {
      var n := sc.count as real;
      var s := sc.Total() as real;
      AveragesAdd(sc.auto as real, sc.teleop as real, sc.endgame as real, n);
      assert (sc.auto as real + sc.teleop as real + sc.endgame as real) / n == s / n;
      if s != 0.0 {
        assert s / n != 0.0;
        ShareOfAverages(sc.auto as real, s, n);
        ShareOfAverages(sc.teleop as real, s, n);
        ShareOfAverages(sc.endgame as real, s, n);
      } else {
        assert s / n == 0.0;
      }
    }
  }

  /** The normalised sum of the component probabilities weighted by the scalers.
      The scalers come from ComponentScalers and each probability pair from
      PredictWin, so both sum to one. */
  function CombinePredictions(auto: WinProbability, teleop: WinProbability, endgame: WinProbability, s: Scalers): (p: WinProbability)
    requires s.Sum() == 1.0
    requires auto.red + auto.blue == 1.0 && teleop.red + teleop.blue == 1.0 && endgame.red + endgame.blue == 1.0
    ensures p.red + p.blue == 1.0
  {
    var red := 0.0 + auto.red * s.auto + teleop.red * s.teleop + endgame.red * s.endgame;
    var blue := 0.0 + auto.blue * s.auto + teleop.blue * s.teleop + endgame.blue * s.endgame;
    var total := red + blue;
    Complement(auto.red, auto.blue, s.auto);
    Complement(teleop.red, teleop.blue, s.teleop);
    Complement(endgame.red, endgame.blue, s.endgame);
    assert total == 1.0;
    WinProbability(red / total, blue / total)
  }

  /** The weighted sums already add up to one, so the normalisation changes
      nothing: red's prediction is the scaler-weighted mix of the component
      predictions, and it is a probability when no scaler is negative. */
  lemma CombinePredictionsIsMix(auto: WinProbability, teleop: WinProbability, endgame: WinProbability, s: Scalers)
    requires s.Sum() == 1.0
    requires 0.0 <= auto.red <= 1.0 && 0.0 <= teleop.red <= 1.0 && 0.0 <= endgame.red <= 1.0
    requires auto.red + auto.blue == 1.0 && teleop.red + teleop.blue == 1.0 && endgame.red + endgame.blue == 1.0
    ensures var p := CombinePredictions(auto, teleop, endgame, s);
            && p.red == 0.0 + auto.red * s.auto + teleop.red * s.teleop + endgame.red * s.endgame
            && p.blue == 0.0 + auto.blue * s.auto + teleop.blue * s.teleop + endgame.blue * s.endgame
            && (s.auto >= 0.0 && s.teleop >= 0.0 && s.endgame >= 0.0 ==> 0.0 <= p.red <= 1.0)
  {
    Complement(auto.red, auto.blue, s.auto);
    Complement(teleop.red, teleop.blue, s.teleop);
    Complement(endgame.red, endgame.blue, s.endgame);
    if s.auto >= 0.0 && s.teleop >= 0.0 && s.endgame >= 0.0 {
      MixBounds(s.auto, s.teleop, s.endgame, auto.red, teleop.red, endgame.red,
                0.0 + auto.red * s.auto + teleop.red * s.teleop + endgame.red * s.endgame);
    }
  }

  /** All the weight on one component gives that component's prediction. */
  lemma CombinePredictionsOfUnit(auto: WinProbability, teleop: WinProbability, endgame: WinProbability, s: Scalers)
    requires s == Scalers(1.0, 0.0, 0.0) || s == Scalers(0.0, 1.0, 0.0) || s == Scalers(0.0, 0.0, 1.0)
    requires 0.0 <= auto.red <= 1.0 && 0.0 <= teleop.red <= 1.0 && 0.0 <= endgame.red <= 1.0
    requires auto.red + auto.blue == 1.0 && teleop.red + teleop.blue == 1.0 && endgame.red + endgame.blue == 1.0
    ensures CombinePredictions(auto, teleop, endgame, s) ==
              if s.auto == 1.0 then auto else if s.teleop == 1.0 then teleop else endgame
  {
    CombinePredictionsIsMix(auto, teleop, endgame, s);
  }
}
