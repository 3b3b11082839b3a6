/** The match model of src/.../model/model.py: alliance aggregation, the win
    probability and the margin-of-victory-scaled update rule. */
module Model {
  import opened Ratings
  import opened RealMath
  import opened Wrappers

  const LEARNING_RATE: real := 0.05
  const DECAY_RATE: real := 0.95

  /** Every sigma is positive: the model divides by sums of squared sigmas. */
  predicate AllPositive(rs: seq<Rating>) {
    forall i :: 0 <= i < |rs| ==> rs[i].sigma > 0.0
  }

  /** What `predict_win` and `rate` need of the two alliances: positive sigmas and
      at least one competitor, so that the spread of the difference is non-zero. */
  predicate ValidAlliances(red: seq<Rating>, blue: seq<Rating>) {
    AllPositive(red) && AllPositive(blue) && |red| + |blue| > 0
  }

  function SumMu(rs: seq<Rating>): real {
    if |rs| == 0 then 0.0 else rs[0].mu + SumMu(rs[1..])
  }

  function SumSquares(rs: seq<Rating>): real {
    if |rs| == 0 then 0.0 else Sq(rs[0].sigma) + SumSquares(rs[1..])
  }

  // ---------------------------------------------------------------------------
  // Alliance aggregation (`_calculate_team_rating`)
  // ---------------------------------------------------------------------------

  /** The alliance rating: means add, variances add. */
  function TeamRating(rs: seq<Rating>, n: Numerics): (team: Rating)
    requires Lawful(n)
    ensures team.mu == SumMu(rs)
    ensures team.sigma >= 0.0 && Sq(team.sigma) == SumSquares(rs)
    ensures forall i :: 0 <= i < |rs| ==> team.sigma >= rs[i].sigma
    ensures team.name.None?
  {
    SumSquaresNonNegative(rs);
    TeamSigmaBoundsMembers(rs, n);
    NewRating(mu := SumMu(rs), sigma := n.sqrt[SumSquares(rs)])
  }

  lemma {:induction false} SumSquaresNonNegative(rs: seq<Rating>)
    ensures SumSquares(rs) >= 0.0
  {
    if |rs| > 0 {
      SumSquaresNonNegative(rs[1..]);
      SquareNonNegative(rs[0].sigma);
    }
  }

  /** Each member's variance is one of the summands of the alliance variance. */
  lemma {:induction false} SumSquaresBoundsMember(rs: seq<Rating>, i: int)
    requires 0 <= i < |rs|
    ensures SumSquares(rs) >= Sq(rs[i].sigma)
  {
    if i == 0 {
      SumSquaresNonNegative(rs[1..]);
    } else {
      SumSquaresBoundsMember(rs[1..], i - 1);
      assert rs[1..][i - 1] == rs[i];
      SquareNonNegative(rs[0].sigma);
    }
  }

  lemma TeamSigmaBoundsMembers(rs: seq<Rating>, n: Numerics)
    requires Lawful(n)
    ensures forall i :: 0 <= i < |rs| ==> n.sqrt[SumSquares(rs)] >= rs[i].sigma
  {
    SumSquaresNonNegative(rs);
    var t := n.sqrt[SumSquares(rs)];
    assert t >= 0.0 && Sq(t) == SumSquares(rs);
    forall i | 0 <= i < |rs|
      ensures t >= rs[i].sigma
    {
      if rs[i].sigma > 0.0 {
        SumSquaresBoundsMember(rs, i);
        SquareMonotone(rs[i].sigma, t);
      }
    }
  }

  lemma {:induction false} SumsAreAdditive(a: seq<Rating>, b: seq<Rating>)
    ensures SumMu(a + b) == SumMu(a) + SumMu(b)
    ensures SumSquares(a + b) == SumSquares(a) + SumSquares(b)
  {
    if |a| > 0 {
      assert (a + b)[1..] == a[1..] + b;
      SumsAreAdditive(a[1..], b);
    } else {
      assert a + b == b;
    }
  }

  /** An alliance is a set of competitors: listing its members in another order
      (here, rotating the list) gives the same alliance rating. */
  lemma TeamRatingIgnoresOrder(a: seq<Rating>, b: seq<Rating>, n: Numerics)
    requires Lawful(n)
    ensures TeamRating(a + b, n) == TeamRating(b + a, n)
  {
    SumsAreAdditive(a, b);
    SumsAreAdditive(b, a);
  }

  /** An alliance of positive sigmas has positive variance; hence a positive
      alliance sigma. */
  lemma SumSquaresPositive(rs: seq<Rating>)
    requires AllPositive(rs) && |rs| > 0
    ensures SumSquares(rs) > 0.0
  {
    SumSquaresBoundsMember(rs, 0);
    SquarePositive(rs[0].sigma);
  }

  // ---------------------------------------------------------------------------
  // Win probability (`predict_win`)
  // ---------------------------------------------------------------------------

  datatype WinProbability = WinProbability(red: real, blue: real)

  /** The spread of the difference of the two alliance performances. */
  function DeltaSigma(red: seq<Rating>, blue: seq<Rating>, n: Numerics): (d: real)
    requires Lawful(n) && ValidAlliances(red, blue)
    ensures d > 0.0
    ensures Sq(d) == SumSquares(red) + SumSquares(blue)
  {
    var redTeam := TeamRating(red, n);
    var blueTeam := TeamRating(blue, n);
    var variance := Sq(redTeam.sigma) + Sq(blueTeam.sigma);
    AllianceVariancePositive(red, blue);
    SqrtPositive(n, variance);
    n.sqrt[variance]
  }

  lemma AllianceVariancePositive(red: seq<Rating>, blue: seq<Rating>)
    requires ValidAlliances(red, blue)
    ensures SumSquares(red) + SumSquares(blue) > 0.0
  {
    if |red| > 0 {
      SumSquaresPositive(red);
      SumSquaresNonNegative(blue);
    } else {
      SumSquaresPositive(blue);
    }
  }

  /** The standardised mean difference handed to Phi. */
  function ZScore(red: seq<Rating>, blue: seq<Rating>, n: Numerics): real
    requires Lawful(n) && ValidAlliances(red, blue)
  {
    (TeamRating(red, n).mu - TeamRating(blue, n).mu) / DeltaSigma(red, blue, n)
  }

  /** Red's chance is Phi of the difference of the mean sums over the spread of the
      difference; blue gets the rest. */
  function PredictWin(red: seq<Rating>, blue: seq<Rating>, n: Numerics): (p: WinProbability)
    requires Lawful(n) && ValidAlliances(red, blue)
    ensures p.red == n.phi[(SumMu(red) - SumMu(blue)) / DeltaSigma(red, blue, n)]
    ensures 0.0 <= p.red <= 1.0 && 0.0 <= p.blue <= 1.0
    ensures p.red + p.blue == 1.0
  {
    var pRed := n.phi[ZScore(red, blue, n)];
    WinProbability(pRed, 1.0 - pRed)
  }

  /** Swapping the alliances swaps the two probabilities. */
  lemma PredictWinSwap(red: seq<Rating>, blue: seq<Rating>, n: Numerics)
    requires Lawful(n) && ValidAlliances(red, blue)
    ensures PredictWin(blue, red, n).red == PredictWin(red, blue, n).blue
    ensures PredictWin(blue, red, n).blue == PredictWin(red, blue, n).red
  {
    var d := DeltaSigma(red, blue, n);
    var d' := DeltaSigma(blue, red, n);
    SquareInjective(d, d');
    var dm := TeamRating(red, n).mu - TeamRating(blue, n).mu;
    assert ZScore(blue, red, n) == (-dm) / d;
    NegatedQuotient(dm, d);
    assert Mirrored(ZScore(red, blue, n), ZScore(blue, red, n));
  }

  /** Alliances with equal mean sums are even: 0.5 each. */
  lemma PredictWinEven(red: seq<Rating>, blue: seq<Rating>, n: Numerics)
    requires Lawful(n) && ValidAlliances(red, blue)
    requires SumMu(red) == SumMu(blue)
    ensures PredictWin(red, blue, n) == WinProbability(0.5, 0.5)
  {
    assert ZScore(red, blue, n) == 0.0;
  }

  /** The alliance with the larger mean sum is strictly favoured, and red's chance
      is above one half exactly when red's mean sum is the larger. */
  lemma PredictWinFavoursStronger(red: seq<Rating>, blue: seq<Rating>, n: Numerics)
    requires Lawful(n) && ValidAlliances(red, blue)
    ensures SumMu(red) > SumMu(blue) <==> PredictWin(red, blue, n).red > 0.5
    ensures SumMu(red) < SumMu(blue) <==> PredictWin(red, blue, n).red < 0.5
  {
    var d := DeltaSigma(red, blue, n);
    var dm := SumMu(red) - SumMu(blue);
    var z := dm / d;
    assert PredictWin(red, blue, n).red == n.phi[z];
    QuotientSign(dm, d);
    if dm > 0.0 {
      assert Below(0.0, z);
    } else if dm < 0.0 {
      assert Below(z, 0.0);
    } else {
      assert z == 0.0;
    }
  }

  // ---------------------------------------------------------------------------
  // Update rule (`rate`)
  // ---------------------------------------------------------------------------

  /** Red wins only on a strictly higher score; a tie counts as a blue win. */
  function Outcome(redScore: real, blueScore: real): real {
    if redScore > blueScore then 1.0 else 0.0
  }

  /** `log2(1 + margin) * 3`: a compressed margin-of-victory multiplier. */
  function MovScale(redScore: real, blueScore: real, n: Numerics): real
    requires Log2Laws(n.log2)
  {
    n.log2[1.0 + Abs(redScore - blueScore)] * 3.0
  }

  /** The share of the alliance surprise a member absorbs. */
  function Weight(r: Rating, teamSigma: real): real
    requires r.sigma > 0.0
  {
    var own := Sq(r.sigma);
    var team := Sq(teamSigma);
    SquarePositive(r.sigma);
    SquareNonNegative(teamSigma);
    own / (own + team)
  }

  /** The learning term of the sigma update, `sqrt(LEARNING_RATE * error^2)`. */
  function SigmaGain(error: real, n: Numerics): real
    requires Total(n.sqrt)
  {
    n.sqrt[LEARNING_RATE * Sq(error)]
  }

  /** The learning term is sqrt(0.05) times the size of the error, so never negative. */
  lemma SigmaGainIsScaledError(error: real, n: Numerics)
    requires SqrtLaws(n.sqrt)
    ensures SigmaGain(error, n) == n.sqrt[LEARNING_RATE] * Abs(error)
    ensures SigmaGain(error, n) >= 0.0
  {
    SqrtOfScaledSquare(n, LEARNING_RATE, error);
    SquareNonNegative(error);
  }

  function UpdateMember(r: Rating, teamSigma: real, performanceChange: real, predictionError: real, n: Numerics): Rating
    requires r.sigma > 0.0 && Total(n.sqrt)
  {
    Rating(
      r.mu + Weight(r, teamSigma) * performanceChange,
      r.sigma * DECAY_RATE + SigmaGain(predictionError, n),
      r.name)
  }

  function UpdateAlliance(rs: seq<Rating>, teamSigma: real, performanceChange: real, predictionError: real, n: Numerics): (r: seq<Rating>)
    requires AllPositive(rs) && Total(n.sqrt)
    ensures |r| == |rs|
    ensures forall i :: 0 <= i < |rs| ==> r[i] == UpdateMember(rs[i], teamSigma, performanceChange, predictionError, n)
  {
    seq(|rs|, i requires 0 <= i < |rs| => UpdateMember(rs[i], teamSigma, performanceChange, predictionError, n))
  }

  datatype Rated = Rated(red: seq<Rating>, blue: seq<Rating>)

  /** The surprise from red's point of view: the outcome less red's win probability. */
  function Surprise(red: seq<Rating>, blue: seq<Rating>, redScore: real, blueScore: real, n: Numerics): (s: real)
    requires Lawful(n) && ValidAlliances(red, blue)
    ensures -1.0 <= s <= 1.0
    ensures redScore > blueScore ==> s >= 0.0
    ensures redScore <= blueScore ==> s <= 0.0
  {
    Outcome(redScore, blueScore) - PredictWin(red, blue, n).red
  }

  /** Red's performance change: the margin scale times red's surprise. */
  function RedChange(red: seq<Rating>, blue: seq<Rating>, redScore: real, blueScore: real, n: Numerics): real
    requires Lawful(n) && ValidAlliances(red, blue)
  {
    MovScale(redScore, blueScore, n) * Surprise(red, blue, redScore, blueScore, n)
  }

  /** Blue's performance change: the margin scale times blue's own surprise,
      `(1 - outcome) - pBlue`. */
  function BlueChange(red: seq<Rating>, blue: seq<Rating>, redScore: real, blueScore: real, n: Numerics): real
    requires Lawful(n) && ValidAlliances(red, blue)
  {
    MovScale(redScore, blueScore, n) * ((1.0 - Outcome(redScore, blueScore)) - PredictWin(red, blue, n).blue)
  }

  function Rate(red: seq<Rating>, blue: seq<Rating>, redScore: real, blueScore: real, n: Numerics): (r: Rated)
    requires Lawful(n) && ValidAlliances(red, blue)
    ensures |r.red| == |red| && |r.blue| == |blue|
    ensures forall i :: 0 <= i < |red| ==> r.red[i].name == red[i].name && r.red[i].sigma >= DECAY_RATE * red[i].sigma
    ensures forall i :: 0 <= i < |blue| ==> r.blue[i].name == blue[i].name && r.blue[i].sigma >= DECAY_RATE * blue[i].sigma
    ensures AllPositive(r.red) && AllPositive(r.blue)
  {
    var predictionError := Abs(Surprise(red, blue, redScore, blueScore, n));
    SigmaGainIsScaledError(predictionError, n);
    Rated(
      UpdateAlliance(red, TeamRating(red, n).sigma, RedChange(red, blue, redScore, blueScore, n), predictionError, n),
      UpdateAlliance(blue, TeamRating(blue, n).sigma, BlueChange(red, blue, redScore, blueScore, n), predictionError, n))
  }

  /** Each alliance is updated with its own sigma and performance change and the
      shared prediction error |outcome - pRed|. An unfolding of Rate for the proofs
      below, not a property of it. */
  lemma RateUpdatesAlliances(red: seq<Rating>, blue: seq<Rating>, redScore: real, blueScore: real, n: Numerics)
    requires Lawful(n) && ValidAlliances(red, blue)
    ensures Rate(red, blue, redScore, blueScore, n) == Rated(
              UpdateAlliance(red, TeamRating(red, n).sigma, RedChange(red, blue, redScore, blueScore, n),
                             Abs(Surprise(red, blue, redScore, blueScore, n)), n),
              UpdateAlliance(blue, TeamRating(blue, n).sigma, BlueChange(red, blue, redScore, blueScore, n),
                             Abs(Surprise(red, blue, redScore, blueScore, n)), n))
  {
  }

  /** Blue's performance change is the exact negative of red's. */
  lemma ChangesAreOpposite(red: seq<Rating>, blue: seq<Rating>, redScore: real, blueScore: real, n: Numerics)
    requires Lawful(n) && ValidAlliances(red, blue)
    ensures BlueChange(red, blue, redScore, blueScore, n) == -RedChange(red, blue, redScore, blueScore, n)
  {
    var p := PredictWin(red, blue, n);
    NegatedChange(MovScale(redScore, blueScore, n), Outcome(redScore, blueScore), p.red, p.blue,
                  Surprise(red, blue, redScore, blueScore, n));
  }

  lemma NegatedChange(scale: real, outcome: real, pRed: real, pBlue: real, s: real)
    requires pRed + pBlue == 1.0 && s == outcome - pRed
    ensures scale * ((1.0 - outcome) - pBlue) == -(scale * s)
  {
    assert (1.0 - outcome) - pBlue == -s;
  }

  /** Red's performance change has the sign of red's surprise: the margin scale is
      never negative. */
  lemma RedChangeSign(red: seq<Rating>, blue: seq<Rating>, redScore: real, blueScore: real, n: Numerics)
    requires Lawful(n) && ValidAlliances(red, blue)
    ensures MovScale(redScore, blueScore, n) >= 0.0
    ensures var c := RedChange(red, blue, redScore, blueScore, n);
            var s := Surprise(red, blue, redScore, blueScore, n);
            && (s >= 0.0 ==> c >= 0.0)
            && (s <= 0.0 ==> c <= 0.0)
  {
    MovScaleNonNegative(redScore, blueScore, n);
    ScaledSign(MovScale(redScore, blueScore, n), Surprise(red, blue, redScore, blueScore, n),
               RedChange(red, blue, redScore, blueScore, n));
  }

  /** The margin multiplier is never negative: log2 is at least 0 from 1 on. */
  lemma MovScaleNonNegative(redScore: real, blueScore: real, n: Numerics)
    requires Log2Laws(n.log2)
    ensures MovScale(redScore, blueScore, n) >= 0.0
  {
    Log2NonNegative(n, 1.0 + Abs(redScore - blueScore));
  }

  /** A member's update weight lies in (0, 1/2] whenever the alliance sigma is at
      least the member's own: the alliance variance includes the member's. */
  lemma WeightBounds(r: Rating, teamSigma: real)
    requires 0.0 < r.sigma <= teamSigma
    ensures 0.0 < Weight(r, teamSigma) <= 0.5
  {
    SquarePositive(r.sigma);
    if r.sigma < teamSigma {
      SquareStrictlyMonotone(r.sigma, teamSigma);
    }
    HalfShare(Sq(r.sigma), Sq(teamSigma));
  }

  lemma HalfShare(own: real, team: real)
    requires 0.0 < own <= team
    ensures 0.0 < own / (own + team) <= 0.5
  {
    assert own + team >= 2.0 * own;
  }

  /** Within one alliance every member decays by 0.95 and gets back the same
      learning term. */
  lemma UpdateAllianceSigma(rs: seq<Rating>, teamSigma: real, change: real, error: real, n: Numerics)
    requires Total(n.sqrt) && AllPositive(rs)
    ensures forall i :: 0 <= i < |rs| ==>
              UpdateAlliance(rs, teamSigma, change, error, n)[i].sigma
                == DECAY_RATE * rs[i].sigma + SigmaGain(error, n)
  {
    forall i | 0 <= i < |rs|
      ensures UpdateAlliance(rs, teamSigma, change, error, n)[i].sigma
                == DECAY_RATE * rs[i].sigma + SigmaGain(error, n)
    {
      assert UpdateAlliance(rs, teamSigma, change, error, n)[i] == UpdateMember(rs[i], teamSigma, change, error, n);
    }
  }

  /** The sigma update of `rate`: every member, red or blue, decays by 0.95 and gets
      back the same learning term, computed from the prediction error |outcome - pRed|
      (by SigmaGainIsScaledError, sqrt(0.05) times that error). */
  lemma RateSigma(red: seq<Rating>, blue: seq<Rating>, redScore: real, blueScore: real, n: Numerics)
    requires Lawful(n) && ValidAlliances(red, blue)
    ensures var gain := SigmaGain(Abs(Surprise(red, blue, redScore, blueScore, n)), n);
            && (forall i :: 0 <= i < |red| ==>
                  Rate(red, blue, redScore, blueScore, n).red[i].sigma == DECAY_RATE * red[i].sigma + gain)
            && (forall i :: 0 <= i < |blue| ==>
                  Rate(red, blue, redScore, blueScore, n).blue[i].sigma == DECAY_RATE * blue[i].sigma + gain)
  {
    var e := Abs(Surprise(red, blue, redScore, blueScore, n));
    RateUpdatesAlliances(red, blue, redScore, blueScore, n);
    UpdateAllianceSigma(red, TeamRating(red, n).sigma, RedChange(red, blue, redScore, blueScore, n), e, n);
    UpdateAllianceSigma(blue, TeamRating(blue, n).sigma, BlueChange(red, blue, redScore, blueScore, n), e, n);
  }

  /** A member whose sigma is at most the alliance's moves its mean in the direction
      of the change, by its weight in (0, 1/2] times the change: at most half of it. */
  lemma UpdateMemberMu(r: Rating, teamSigma: real, change: real, error: real, n: Numerics)
    requires 0.0 < r.sigma <= teamSigma && Total(n.sqrt)
    ensures var u := UpdateMember(r, teamSigma, change, error, n);
            && 0.0 < Weight(r, teamSigma) <= 0.5
            && u.mu == r.mu + Weight(r, teamSigma) * change
            && (change >= 0.0 ==> r.mu <= u.mu <= r.mu + change / 2.0)
            && (change <= 0.0 ==> r.mu + change / 2.0 <= u.mu <= r.mu)
  {
    WeightBounds(r, teamSigma);
    HalfShareBounds(r.mu, Weight(r, teamSigma), change, UpdateMember(r, teamSigma, change, error, n).mu);
  }

  /** Within one alliance whose sigma bounds every member's, each mean moves in the
      direction of the change and by at most half of it. */
  lemma UpdateAllianceMu(rs: seq<Rating>, teamSigma: real, change: real, error: real, n: Numerics)
    requires AllPositive(rs) && Total(n.sqrt)
    requires forall i :: 0 <= i < |rs| ==> teamSigma >= rs[i].sigma
    ensures forall i :: 0 <= i < |rs| ==>
              var u := UpdateAlliance(rs, teamSigma, change, error, n)[i];
              && (change >= 0.0 ==> rs[i].mu <= u.mu <= rs[i].mu + change / 2.0)
              && (change <= 0.0 ==> rs[i].mu + change / 2.0 <= u.mu <= rs[i].mu)
  {
    forall i | 0 <= i < |rs|
      ensures var u := UpdateAlliance(rs, teamSigma, change, error, n)[i];
              && (change >= 0.0 ==> rs[i].mu <= u.mu <= rs[i].mu + change / 2.0)
              && (change <= 0.0 ==> rs[i].mu + change / 2.0 <= u.mu <= rs[i].mu)
    {
      assert UpdateAlliance(rs, teamSigma, change, error, n)[i] == UpdateMember(rs[i], teamSigma, change, error, n);
      UpdateMemberMu(rs[i], teamSigma, change, error, n);
    }
  }

  /** Red's means move with the surprise and blue's against it, each by at most half
      of red's performance change. */
  lemma RateMuDirection(red: seq<Rating>, blue: seq<Rating>, redScore: real, blueScore: real, n: Numerics)
    requires Lawful(n) && ValidAlliances(red, blue)
    ensures var r := Rate(red, blue, redScore, blueScore, n);
            var s := Surprise(red, blue, redScore, blueScore, n);
            var c := RedChange(red, blue, redScore, blueScore, n);
            && (forall i :: 0 <= i < |red| ==>
                  && (s >= 0.0 ==> red[i].mu <= r.red[i].mu <= red[i].mu + c / 2.0)
                  && (s <= 0.0 ==> red[i].mu + c / 2.0 <= r.red[i].mu <= red[i].mu))
            && (forall i :: 0 <= i < |blue| ==>
                  && (s >= 0.0 ==> blue[i].mu - c / 2.0 <= r.blue[i].mu <= blue[i].mu)
                  && (s <= 0.0 ==> blue[i].mu <= r.blue[i].mu <= blue[i].mu - c / 2.0))
  {
    var e := Abs(Surprise(red, blue, redScore, blueScore, n));
    RateUpdatesAlliances(red, blue, redScore, blueScore, n);
    RedChangeSign(red, blue, redScore, blueScore, n);
    ChangesAreOpposite(red, blue, redScore, blueScore, n);
    UpdateAllianceMu(red, TeamRating(red, n).sigma, RedChange(red, blue, redScore, blueScore, n), e, n);
    UpdateAllianceMu(blue, TeamRating(blue, n).sigma, BlueChange(red, blue, redScore, blueScore, n), e, n);
  }

  /** The mean update of `rate`: each member absorbs the share
      σ² / (σ² + σ_team²) of its alliance's performance change, where σ_team is the
      alliance's sigma, and that change is the margin scale times the alliance's own
      surprise (red: outcome − pRed, blue: (1 − outcome) − pBlue). */
  lemma RateMu(red: seq<Rating>, blue: seq<Rating>, redScore: real, blueScore: real, n: Numerics)
    requires Lawful(n) && ValidAlliances(red, blue)
    ensures var r := Rate(red, blue, redScore, blueScore, n);
            var t := TeamRating(red, n).sigma;
            forall i :: 0 <= i < |red| ==>
              && Sq(red[i].sigma) > 0.0 && Sq(t) >= 0.0
              && r.red[i].mu == red[i].mu + Sq(red[i].sigma) / (Sq(red[i].sigma) + Sq(t))
                                            * RedChange(red, blue, redScore, blueScore, n)
    ensures var r := Rate(red, blue, redScore, blueScore, n);
            var t := TeamRating(blue, n).sigma;
            forall i :: 0 <= i < |blue| ==>
              && Sq(blue[i].sigma) > 0.0 && Sq(t) >= 0.0
              && r.blue[i].mu == blue[i].mu + Sq(blue[i].sigma) / (Sq(blue[i].sigma) + Sq(t))
                                              * BlueChange(red, blue, redScore, blueScore, n)
    ensures RedChange(red, blue, redScore, blueScore, n)
              == MovScale(redScore, blueScore, n) * (Outcome(redScore, blueScore) - PredictWin(red, blue, n).red)
    ensures BlueChange(red, blue, redScore, blueScore, n)
              == MovScale(redScore, blueScore, n) * ((1.0 - Outcome(redScore, blueScore)) - PredictWin(red, blue, n).blue)
  {
    hide *;
    var tr := TeamRating(red, n).sigma;
    var tb := TeamRating(blue, n).sigma;
    forall i | 0 <= i < |red|
      ensures && Sq(red[i].sigma) > 0.0 && Sq(tr) >= 0.0
              && Rate(red, blue, redScore, blueScore, n).red[i].mu
                   == red[i].mu + Sq(red[i].sigma) / (Sq(red[i].sigma) + Sq(tr))
                                  * RedChange(red, blue, redScore, blueScore, n)
    {
      RateMemberShare(red, blue, redScore, blueScore, n, i);
    }
    forall i | 0 <= i < |blue|
      ensures && Sq(blue[i].sigma) > 0.0 && Sq(tb) >= 0.0
              && Rate(red, blue, redScore, blueScore, n).blue[i].mu
                   == blue[i].mu + Sq(blue[i].sigma) / (Sq(blue[i].sigma) + Sq(tb))
                                   * BlueChange(red, blue, redScore, blueScore, n)
    {
      RateMemberShare(red, blue, redScore, blueScore, n, i);
    }
    ChangesSpelledOut(red, blue, redScore, blueScore, n);
  }

  /** RateMu for the members at position `i` of either alliance. */
  lemma RateMemberShare(red: seq<Rating>, blue: seq<Rating>, redScore: real, blueScore: real, n: Numerics, i: int)
    requires Lawful(n) && ValidAlliances(red, blue) && 0 <= i
    ensures i < |red| ==>
              var t := TeamRating(red, n).sigma;
              && Sq(red[i].sigma) > 0.0 && Sq(t) >= 0.0
              && Rate(red, blue, redScore, blueScore, n).red[i].mu
                   == red[i].mu + Sq(red[i].sigma) / (Sq(red[i].sigma) + Sq(t))
                                  * RedChange(red, blue, redScore, blueScore, n)
    ensures i < |blue| ==>
              var t := TeamRating(blue, n).sigma;
              && Sq(blue[i].sigma) > 0.0 && Sq(t) >= 0.0
              && Rate(red, blue, redScore, blueScore, n).blue[i].mu
                   == blue[i].mu + Sq(blue[i].sigma) / (Sq(blue[i].sigma) + Sq(t))
                                   * BlueChange(red, blue, redScore, blueScore, n)
  {
    hide Rate, PredictWin, MovScale, Weight, RedChange, BlueChange, Surprise, Outcome;
    RateMemberMoves(red, blue, redScore, blueScore, n, i);
    if i < |red| {
      WeightIsShare(red[i], TeamRating(red, n).sigma);
    }
    if i < |blue| {
      WeightIsShare(blue[i], TeamRating(blue, n).sigma);
    }
  }

  /** RateMembersMu for the members at position `i` of either alliance. */
  lemma RateMemberMoves(red: seq<Rating>, blue: seq<Rating>, redScore: real, blueScore: real, n: Numerics, i: int)
    requires Lawful(n) && ValidAlliances(red, blue) && 0 <= i
    ensures i < |red| ==>
              Rate(red, blue, redScore, blueScore, n).red[i].mu
                == red[i].mu + Weight(red[i], TeamRating(red, n).sigma) * RedChange(red, blue, redScore, blueScore, n)
    ensures i < |blue| ==>
              Rate(red, blue, redScore, blueScore, n).blue[i].mu
                == blue[i].mu + Weight(blue[i], TeamRating(blue, n).sigma) * BlueChange(red, blue, redScore, blueScore, n)
  {
    hide *;
    RateMembersMu(red, blue, redScore, blueScore, n);
  }

  /** Unfolds Weight for proofs that keep it hidden; not a property of it. */
  lemma WeightIsShare(r: Rating, teamSigma: real)
    requires r.sigma > 0.0
    ensures Sq(r.sigma) > 0.0 && Sq(teamSigma) >= 0.0
    ensures Weight(r, teamSigma) == Sq(r.sigma) / (Sq(r.sigma) + Sq(teamSigma))
  {
    SquarePositive(r.sigma);
    SquareNonNegative(teamSigma);
  }

  /** Unfolds the two performance changes for proofs that keep them hidden; not a
      property of them. */
  lemma ChangesSpelledOut(red: seq<Rating>, blue: seq<Rating>, redScore: real, blueScore: real, n: Numerics)
    requires Lawful(n) && ValidAlliances(red, blue)
    ensures RedChange(red, blue, redScore, blueScore, n)
              == MovScale(redScore, blueScore, n) * (Outcome(redScore, blueScore) - PredictWin(red, blue, n).red)
    ensures BlueChange(red, blue, redScore, blueScore, n)
              == MovScale(redScore, blueScore, n) * ((1.0 - Outcome(redScore, blueScore)) - PredictWin(red, blue, n).blue)
  {
  }

  /** Of two members whose sigma is at most the alliance's, the less certain one
      (larger sigma) absorbs a strictly larger share of the change. */
  lemma WeightStrictlyMonotone(a: Rating, b: Rating, teamSigma: real)
    requires 0.0 < a.sigma < b.sigma <= teamSigma
    ensures Weight(a, teamSigma) < Weight(b, teamSigma)
  {
    SquareStrictlyMonotone(a.sigma, b.sigma);
    SquarePositive(a.sigma);
    SquareStrictlyMonotone(0.0, teamSigma);
    assert Sq(0.0) == 0.0;
    ShareStrictlyMonotone(Sq(a.sigma), Sq(b.sigma), Sq(teamSigma));
  }

  /** Within one alliance, a less certain member's mean moves strictly further than
      a more certain member's whenever the alliance's change is non-zero: red's by
      RedChange, blue's by BlueChange. */
  lemma RateLessCertainMovesFurther(red: seq<Rating>, blue: seq<Rating>, redScore: real, blueScore: real,
                                    n: Numerics)
    requires Lawful(n) && ValidAlliances(red, blue)
    ensures var r := Rate(red, blue, redScore, blueScore, n);
            RedChange(red, blue, redScore, blueScore, n) != 0.0 ==>
              forall i, j :: 0 <= i < |red| && 0 <= j < |red| && red[i].sigma < red[j].sigma ==>
                Abs(r.red[i].mu - red[i].mu) < Abs(r.red[j].mu - red[j].mu)
    ensures var r := Rate(red, blue, redScore, blueScore, n);
            BlueChange(red, blue, redScore, blueScore, n) != 0.0 ==>
              forall i, j :: 0 <= i < |blue| && 0 <= j < |blue| && blue[i].sigma < blue[j].sigma ==>
                Abs(r.blue[i].mu - blue[i].mu) < Abs(r.blue[j].mu - blue[j].mu)
  {
    hide Weight, PredictWin, MovScale, Rate;
    var r := Rate(red, blue, redScore, blueScore, n);
    var cr := RedChange(red, blue, redScore, blueScore, n);
    var cb := BlueChange(red, blue, redScore, blueScore, n);
    var tr := TeamRating(red, n).sigma;
    var tb := TeamRating(blue, n).sigma;
    RateMembersMu(red, blue, redScore, blueScore, n);
    forall i, j | 0 <= i < |red| && 0 <= j < |red| && red[i].sigma < red[j].sigma && cr != 0.0
      ensures Abs(r.red[i].mu - red[i].mu) < Abs(r.red[j].mu - red[j].mu)
    {
      WeightStrictlyMonotone(red[i], red[j], tr);
      WeightBounds(red[i], tr);
      MovesFurther(Weight(red[i], tr), Weight(red[j], tr), cr, red[i].mu, r.red[i].mu, red[j].mu, r.red[j].mu);
    }
    forall i, j | 0 <= i < |blue| && 0 <= j < |blue| && blue[i].sigma < blue[j].sigma && cb != 0.0
      ensures Abs(r.blue[i].mu - blue[i].mu) < Abs(r.blue[j].mu - blue[j].mu)
    {
      WeightStrictlyMonotone(blue[i], blue[j], tb);
      WeightBounds(blue[i], tb);
      MovesFurther(Weight(blue[i], tb), Weight(blue[j], tb), cb, blue[i].mu, r.blue[i].mu, blue[j].mu, r.blue[j].mu);
    }
  }

  /** Each mean moves by its member's weight times its alliance's change. */
  lemma RateMembersMu(red: seq<Rating>, blue: seq<Rating>, redScore: real, blueScore: real, n: Numerics)
    requires Lawful(n) && ValidAlliances(red, blue)
    ensures var r := Rate(red, blue, redScore, blueScore, n);
            && (forall i :: 0 <= i < |red| ==>
                  r.red[i].mu == red[i].mu + Weight(red[i], TeamRating(red, n).sigma)
                                             * RedChange(red, blue, redScore, blueScore, n))
            && (forall i :: 0 <= i < |blue| ==>
                  r.blue[i].mu == blue[i].mu + Weight(blue[i], TeamRating(blue, n).sigma)
                                               * BlueChange(red, blue, redScore, blueScore, n))
  {
    hide Weight, PredictWin, MovScale;
    var e := Abs(Surprise(red, blue, redScore, blueScore, n));
    RateUpdatesAlliances(red, blue, redScore, blueScore, n);
    var tr := TeamRating(red, n).sigma;
    var tb := TeamRating(blue, n).sigma;
    forall i | 0 <= i < |red|
      ensures Rate(red, blue, redScore, blueScore, n).red[i].mu
                == red[i].mu + Weight(red[i], tr) * RedChange(red, blue, redScore, blueScore, n)
    {
      assert UpdateAlliance(red, tr, RedChange(red, blue, redScore, blueScore, n), e, n)[i]
               == UpdateMember(red[i], tr, RedChange(red, blue, redScore, blueScore, n), e, n);
    }
    forall i | 0 <= i < |blue|
      ensures Rate(red, blue, redScore, blueScore, n).blue[i].mu
                == blue[i].mu + Weight(blue[i], tb) * BlueChange(red, blue, redScore, blueScore, n)
    {
      assert UpdateAlliance(blue, tb, BlueChange(red, blue, redScore, blueScore, n), e, n)[i]
               == UpdateMember(blue[i], tb, BlueChange(red, blue, redScore, blueScore, n), e, n);
    }
  }

  /** Moving by a positive weight times a non-zero change, a larger weight moves
      strictly further: `u1` and `u2` are the moved values. */
  lemma MovesFurther(w1: real, w2: real, c: real, m1: real, u1: real, m2: real, u2: real)
    requires 0.0 < w1 < w2 && c != 0.0 && u1 == m1 + w1 * c && u2 == m2 + w2 * c
    ensures Abs(u1 - m1) < Abs(u2 - m2)
  {
    ScaleStrictlyMonotone(w1, w2, c, w1 * c, w2 * c);
    ScaledStrictSign(w1, c, w1 * c);
  }

  /** A tie is scored as a blue win, but its margin is zero, so no mean moves. */
  lemma RateTieKeepsMu(red: seq<Rating>, blue: seq<Rating>, score: real, n: Numerics)
    requires Lawful(n) && ValidAlliances(red, blue)
    ensures Outcome(score, score) == 0.0
    ensures MovScale(score, score, n) == 0.0
    ensures var r := Rate(red, blue, score, score, n);
            && (forall i :: 0 <= i < |red| ==> r.red[i].mu == red[i].mu)
            && (forall i :: 0 <= i < |blue| ==> r.blue[i].mu == blue[i].mu)
  {
    assert RedChange(red, blue, score, score, n) == 0.0;
    RateMuDirection(red, blue, score, score, n);
  }

  /** With the same ratings and the same winner, a wider margin moves every mean
      strictly further in its direction, as long as the result was not a certainty. */
  lemma RateWiderMarginMovesFurther(red: seq<Rating>, blue: seq<Rating>, rs1: real, bs1: real, rs2: real, bs2: real, n: Numerics)
    requires Lawful(n) && ValidAlliances(red, blue)
    requires (rs1 > bs1) == (rs2 > bs2)
    requires Abs(rs1 - bs1) < Abs(rs2 - bs2)
    ensures var s := Surprise(red, blue, rs1, bs1, n);
            var narrow := Rate(red, blue, rs1, bs1, n);
            var wide := Rate(red, blue, rs2, bs2, n);
            && Surprise(red, blue, rs2, bs2, n) == s
            && (forall i :: 0 <= i < |red| ==>
                  && (s > 0.0 ==> narrow.red[i].mu < wide.red[i].mu)
                  && (s < 0.0 ==> wide.red[i].mu < narrow.red[i].mu))
            && (forall i :: 0 <= i < |blue| ==>
                  && (s > 0.0 ==> wide.blue[i].mu < narrow.blue[i].mu)
                  && (s < 0.0 ==> narrow.blue[i].mu < wide.blue[i].mu))
  {
    var s := Surprise(red, blue, rs1, bs1, n);
    WiderMarginLargerChanges(red, blue, rs1, bs1, rs2, bs2, n);
    RateUpdatesAlliances(red, blue, rs1, bs1, n);
    RateUpdatesAlliances(red, blue, rs2, bs2, n);
    var c1, c2 := RedChange(red, blue, rs1, bs1, n), RedChange(red, blue, rs2, bs2, n);
    var b1, b2 := BlueChange(red, blue, rs1, bs1, n), BlueChange(red, blue, rs2, bs2, n);
    var e := Abs(s);
    if s > 0.0 {
      UpdateAllianceMonotone(red, TeamRating(red, n).sigma, c1, c2, e, e, n);
      UpdateAllianceMonotone(blue, TeamRating(blue, n).sigma, b2, b1, e, e, n);
    } else if s < 0.0 {
      UpdateAllianceMonotone(red, TeamRating(red, n).sigma, c2, c1, e, e, n);
      UpdateAllianceMonotone(blue, TeamRating(blue, n).sigma, b1, b2, e, e, n);
    }
  }

  /** With the same winner the surprise is the same, so the wider margin scales it
      by more: both performance changes grow strictly in size. */
  lemma WiderMarginLargerChanges(red: seq<Rating>, blue: seq<Rating>, rs1: real, bs1: real, rs2: real, bs2: real, n: Numerics)
    requires Lawful(n) && ValidAlliances(red, blue)
    requires (rs1 > bs1) == (rs2 > bs2)
    requires Abs(rs1 - bs1) < Abs(rs2 - bs2)
    ensures var s := Surprise(red, blue, rs1, bs1, n);
            var c1, c2 := RedChange(red, blue, rs1, bs1, n), RedChange(red, blue, rs2, bs2, n);
            var b1, b2 := BlueChange(red, blue, rs1, bs1, n), BlueChange(red, blue, rs2, bs2, n);
            && Surprise(red, blue, rs2, bs2, n) == s
            && (s > 0.0 ==> c1 < c2 && b2 < b1)
            && (s < 0.0 ==> c2 < c1 && b1 < b2)
  {
    var s := Surprise(red, blue, rs1, bs1, n);
    assert Surprise(red, blue, rs2, bs2, n) == s;
    var k1, k2 := MovScale(rs1, bs1, n), MovScale(rs2, bs2, n);
    Log2NonNegative(n, 1.0 + Abs(rs1 - bs1));
    assert Below(1.0 + Abs(rs1 - bs1), 1.0 + Abs(rs2 - bs2));
    ScaleStrictlyMonotone(k1, k2, s, RedChange(red, blue, rs1, bs1, n), RedChange(red, blue, rs2, bs2, n));
    ChangesAreOpposite(red, blue, rs1, bs1, n);
    ChangesAreOpposite(red, blue, rs2, bs2, n);
  }

  /** Within one alliance, every updated mean is strictly increasing in the change. */
  lemma UpdateAllianceMonotone(rs: seq<Rating>, teamSigma: real, c1: real, c2: real, e1: real, e2: real, n: Numerics)
    requires AllPositive(rs) && Total(n.sqrt)
    requires c1 < c2
    ensures forall i :: 0 <= i < |rs| ==>
              UpdateAlliance(rs, teamSigma, c1, e1, n)[i].mu < UpdateAlliance(rs, teamSigma, c2, e2, n)[i].mu
  {
    forall i | 0 <= i < |rs|
      ensures UpdateAlliance(rs, teamSigma, c1, e1, n)[i].mu < UpdateAlliance(rs, teamSigma, c2, e2, n)[i].mu
    {
      assert UpdateAlliance(rs, teamSigma, c1, e1, n)[i] == UpdateMember(rs[i], teamSigma, c1, e1, n);
      assert UpdateAlliance(rs, teamSigma, c2, e2, n)[i] == UpdateMember(rs[i], teamSigma, c2, e2, n);
      UpdateMemberMonotone(rs[i], teamSigma, c1, c2, e1, e2, n);
    }
  }

  /** A member's updated mean is strictly increasing in the performance change. */
  lemma UpdateMemberMonotone(r: Rating, teamSigma: real, c1: real, c2: real, e1: real, e2: real, n: Numerics)
    requires r.sigma > 0.0 && Total(n.sqrt)
    requires c1 < c2
    ensures UpdateMember(r, teamSigma, c1, e1, n).mu < UpdateMember(r, teamSigma, c2, e2, n).mu
  {
    WeightPositive(r, teamSigma);
    ShiftStrictlyMonotone(r.mu, Weight(r, teamSigma), c1, c2,
                          UpdateMember(r, teamSigma, c1, e1, n).mu, UpdateMember(r, teamSigma, c2, e2, n).mu);
  }

  lemma WeightPositive(r: Rating, teamSigma: real)
    requires r.sigma > 0.0
    ensures Weight(r, teamSigma) > 0.0
  {
    SquarePositive(r.sigma);
    SquareNonNegative(teamSigma);
  }

  /** A decided match with a non-zero margin strictly moves every mean: red's in the
      direction of the surprise, blue's against it. */
  lemma RateMuStrict(red: seq<Rating>, blue: seq<Rating>, redScore: real, blueScore: real, n: Numerics)
    requires Lawful(n) && ValidAlliances(red, blue)
    requires redScore != blueScore
    ensures var r := Rate(red, blue, redScore, blueScore, n);
            var s := Surprise(red, blue, redScore, blueScore, n);
            && (forall i :: 0 <= i < |red| ==>
                  && (s > 0.0 ==> red[i].mu < r.red[i].mu)
                  && (s < 0.0 ==> r.red[i].mu < red[i].mu))
            && (forall i :: 0 <= i < |blue| ==>
                  && (s > 0.0 ==> r.blue[i].mu < blue[i].mu)
                  && (s < 0.0 ==> blue[i].mu < r.blue[i].mu))
  {
    var s := Surprise(red, blue, redScore, blueScore, n);
    var c, b := RedChange(red, blue, redScore, blueScore, n), BlueChange(red, blue, redScore, blueScore, n);
    assert Below(1.0, 1.0 + Abs(redScore - blueScore));
    ScaledStrictSign(MovScale(redScore, blueScore, n), s, c);
    ChangesAreOpposite(red, blue, redScore, blueScore, n);
    RateUpdatesAlliances(red, blue, redScore, blueScore, n);
    var e := Abs(s);
    var redSigma, blueSigma := TeamRating(red, n).sigma, TeamRating(blue, n).sigma;
    UpdateAllianceMu(red, redSigma, 0.0, e, n);
    UpdateAllianceMu(blue, blueSigma, 0.0, e, n);
    if s > 0.0 {
      UpdateAllianceMonotone(red, redSigma, 0.0, c, e, e, n);
      UpdateAllianceMonotone(blue, blueSigma, b, 0.0, e, e, n);
    } else if s < 0.0 {
      UpdateAllianceMonotone(red, redSigma, c, 0.0, e, e, n);
      UpdateAllianceMonotone(blue, blueSigma, 0.0, b, e, e, n);
    }
  }

  /** A one-on-one between two default competitors: the odds are even, red wins
      100-50, so red's mean rises, blue's falls, and both sigmas become
      0.95 * 25/3 plus the learning term of an error of 1/2. */
  lemma EvenDuelScenario(a: string, b: string, n: Numerics)
    requires Lawful(n)
    ensures var red, blue := [NewRating(name := Some(a))], [NewRating(name := Some(b))];
            var r := Rate(red, blue, 100.0, 50.0, n);
            && PredictWin(red, blue, n) == WinProbability(0.5, 0.5)
            && Surprise(red, blue, 100.0, 50.0, n) == 0.5
            && r.red[0].mu > DEFAULT_MU && r.blue[0].mu < DEFAULT_MU
            && r.red[0].sigma == DECAY_RATE * DEFAULT_SIGMA + SigmaGain(0.5, n)
            && r.blue[0].sigma == DECAY_RATE * DEFAULT_SIGMA + SigmaGain(0.5, n)
  {
    var red, blue := [NewRating(name := Some(a))], [NewRating(name := Some(b))];
    assert ValidAlliances(red, blue);
    PredictWinEven(red, blue, n);
    assert Surprise(red, blue, 100.0, 50.0, n) == 0.5;
    RateMuStrict(red, blue, 100.0, 50.0, n);
    RateSigma(red, blue, 100.0, 50.0, n);
  }
}
