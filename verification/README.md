# Statanaut rating replay, modelled in Dafny

This project models the rating engine of the Statanaut model-testing repository and the
replay script that drives it over the FRC match history.

- **`Rating`** (`model/rating.py`) is a mean `mu`, an uncertainty `sigma` and an optional
  name. It has an `ordinal(z) = mu - z*sigma` and an equality test that looks only at
  `mu` and `sigma`.
- **`Model`** (`model/model.py`) has three parts:
  - alliance aggregation: means add, variances add;
  - the win probability Φ(Δμ/Δσ);
  - the update rule `rate`. It scales the surprise `outcome - pRed` by `log2(1 + margin) * 3`. It moves each member's mean by its variance share of that change. It decays each sigma by 0.95 and adds back `sqrt(0.05 * error²)`.
- **The replay** (`model_test.py`) works season by season:
  - It filters the season's rows (blacklist, `-1` scores, required slots by era) and lists the events in first-appearance order.
  - At each event it starts or resets the participants, then plays every row: predict, rate, write back.
  - 2002–2015 use one rating per team. Each team's rating is then promoted to three component ratings (auto, teleop, endgame).
  - 2016–2024 decode each row's score breakdown into those three components. They weight the three component predictions by the season's running score shares, and rate every component on its own points.

The model is functional:

- Ratings are immutable datatypes over `real`.
- The rating tables are `map`s threaded through the replay.
- The season files are a `map` from year to rows.
- Three Python exceptions of the replay are `Result` failures that stop the replay: a KeyError in `breakdown_match`, a ZeroDivisionError in the component scalers, and a ZeroDivisionError in a season's statistics. The other exception the statistics can raise is listed under "## Left out".

The three transcendental functions (Φ, `sqrt`, `log2`) are a `Numerics` parameter. `Lawful(n)` gives them only these laws, which the true functions satisfy:

- Φ lies in [0, 1], Φ(0) = ½, Φ(−x) = 1 − Φ(x), and Φ is strictly increasing;
- `sqrt` is the non-negative square root;
- `log2(1) = 0`, and `log2` is strictly increasing from 1 on.

The modules follow the program:

- `Ratings` is `model/rating.py`.
- `Model` is `model/model.py`.
- `Seqs` and `Matches` are the selection helpers.
- `Breakdowns` is `breakdown_match`.
- `Components` holds the score totals, scalers and combined prediction.
- `Tables` holds the rating tables, event start, write-back and promotion.
- `Replay` is one match.
- `Seasons` covers the event, season and whole-history loops.
- `RealMath` holds the numeric laws and small real-arithmetic lemmas.
- `Wrappers` holds `Option` and `Result`.

The model follows the code in these cases:

- **Ties.** A tie is recorded and rated with `outcome = 0`, the same as a blue win.
- **Zero Δσ.** `predict_win` divides by Δσ without a guard. The model requires positive sigmas, and with positive sigmas Δσ is never zero (`Model.DeltaSigma`).
- **Alliance sigma.** The alliance sigma is never below any member's sigma (`Model.TeamRating`).
- **Sigma reset.** A team's sigma is reset to 25/3 at the start of every event it takes part in.
- **Bad rows.** A row whose breakdown does not decode stops the whole replay.
- **Seasons.** A missing season file is skipped. A season file with no kept row stops the replay, because its statistics divide by the number of records.

## Model

| member | source | states |
|---|---|---|
| Ratings.DefaultRating | src/statanaut_model_testing/model/rating.py:7-15 | A default-constructed Rating is mu 25, sigma 25/3, no name, so its default ordinal is 0 |
| Ratings.OrdinalDefaults | src/statanaut_model_testing/model/rating.py:17-21 | The default z is 3, and the ordinal at z = 0 is the mean |
| Ratings.OrdinalDecreasesInSigma | src/statanaut_model_testing/model/rating.py:17-21 | For a fixed mean and z > 0, a larger sigma gives a strictly smaller ordinal |
| Ratings.EqualsIffSameOrdinals | src/statanaut_model_testing/model/rating.py:45-48 | Two Ratings are equal exactly when they have the same ordinal at every z, so equality observes mu and sigma and nothing else |
| Ratings.EqualsIgnoresName | src/statanaut_model_testing/model/rating.py:45-48 | Ratings differing only in name are equal, and a Rating is never equal to a non-Rating |
| Ratings.EqualsIsEquivalence | src/statanaut_model_testing/model/rating.py:45-48 | Equality between Ratings is reflexive, symmetric and transitive |
| Ratings.SettersAreIndependent | src/statanaut_model_testing/model/rating.py:23-37 | Each setter changes its own field only, the two setters commute, and writing back the current value changes nothing |
| Model.TeamRating | src/statanaut_model_testing/model/model.py:14-21 | The alliance mean is the sum of the member means, the alliance sigma squared is the sum of the member variances, and the alliance sigma is at least every member's sigma |
| Model.TeamRatingIgnoresOrder | src/statanaut_model_testing/model/model.py:14-21 | Listing an alliance's members in rotated order gives the same alliance rating |
| Model.DeltaSigma | src/statanaut_model_testing/model/model.py:31-34 | With positive sigmas, the spread of the difference is positive (the division in predict_win is safe) and its square is the total variance of both alliances |
| Model.PredictWin | src/statanaut_model_testing/model/model.py:23-39 | Red's chance is Φ of the difference of the mean sums over the spread Δσ; both probabilities lie in [0, 1] and they sum to 1 |
| Model.PredictWinSwap | src/statanaut_model_testing/model/model.py:28-37 | Swapping the alliances swaps the two probabilities |
| Model.PredictWinEven | src/statanaut_model_testing/model/model.py:31-37 | Alliances with equal mean sums get 0.5 each |
| Model.PredictWinFavoursStronger | src/statanaut_model_testing/model/model.py:31-37 | Red's chance is above 0.5 iff red's mean sum is larger, and below 0.5 iff it is smaller |
| Model.Surprise | src/statanaut_model_testing/model/model.py:51-57 | The surprise outcome − pRed lies in [−1, 1]; it is ≥ 0 when red scores strictly more and ≤ 0 otherwise, including a tie |
| Model.SigmaGainIsScaledError | src/statanaut_model_testing/model/model.py:73-75 | The learning term sqrt(0.05·err²) equals sqrt(0.05)·abs(err) and is never negative |
| Model.Rate | src/statanaut_model_testing/model/model.py:41-96 | Both outputs keep the length, order and names of their inputs; every new sigma is at least 0.95 times the old one, so all stay positive; the exact mean update is the RateMu row |
| Model.RateMu | src/statanaut_model_testing/model/model.py:65-91 | Every member's new mean is its old mean plus σ²/(σ² + σ_team²) times its alliance's performance change, where σ_team is its own alliance's sigma; red's change is the margin scale times (outcome − pRed), blue's the margin scale times ((1 − outcome) − pBlue) |
| Model.WeightStrictlyMonotone | src/statanaut_model_testing/model/model.py:68-87 | Of two members whose sigmas are at most the alliance sigma, the one with the larger sigma absorbs a strictly larger share |
| Model.RateLessCertainMovesFurther | src/statanaut_model_testing/model/model.py:65-91 | Within one alliance, when its performance change is non-zero, a member with a larger sigma moves its mean strictly further than one with a smaller sigma |
| Model.ChangesAreOpposite | src/statanaut_model_testing/model/model.py:67-82 | Blue's performance change is the exact negative of red's |
| Model.MovScaleNonNegative | src/statanaut_model_testing/model/model.py:59-60 | The margin multiplier log2(1 + margin)·3 is never negative |
| Model.RedChangeSign | src/statanaut_model_testing/model/model.py:59-67 | Red's performance change has the sign of red's surprise |
| Model.WeightBounds | src/statanaut_model_testing/model/model.py:68-72 | A member whose sigma is at most the alliance sigma absorbs a share in (0, 1/2] of the change |
| Model.RateSigma | src/statanaut_model_testing/model/model.py:57-91 | Every member, red or blue, gets the new sigma 0.95·σ plus one common learning term computed from abs(outcome − pRed) |
| Model.RateMuDirection | src/statanaut_model_testing/model/model.py:65-91 | Red means move with the surprise and blue means against it, each by at most half of red's performance change |
| Model.RateMuStrict | src/statanaut_model_testing/model/model.py:59-91 | With a non-zero margin, every mean moves strictly: red's with a non-zero surprise, blue's against it |
| Model.RateTieKeepsMu | src/statanaut_model_testing/model/model.py:55-91 | A tie counts as outcome 0 but has margin 0, so the multiplier is 0 and no mean moves on either side |
| Model.RateWiderMarginMovesFurther | src/statanaut_model_testing/model/model.py:59-91 | With the same ratings and the same winner, a wider margin moves every mean strictly further in its direction |
| Model.EvenDuelScenario | src/statanaut_model_testing/model/model.py:41-96 | Two default players, red winning 100–50: the odds are 0.5/0.5, the surprise is 0.5, red's mean rises, blue's falls, and both sigmas become 0.95·25/3 plus the learning term of 0.5 |
| Seqs.Filter | src/statanaut_model_testing/model_test.py:109-120 | Boolean-mask selection keeps exactly the elements that pass the mask and never adds rows |
| Seqs.FilterAppend | src/statanaut_model_testing/model_test.py:109-120 | Selection distributes over concatenation, so the selected rows keep their relative order |
| Seqs.Dedup | src/statanaut_model_testing/model_test.py:90-91 | De-duplication keeps exactly the values that occur |
| Seqs.DedupFirstAppearanceOrder | src/statanaut_model_testing/model_test.py:90-91 | The de-duplicated list has no repeats and is ordered by first appearance |
| Matches.KeepSpelledOut | src/statanaut_model_testing/model_test.py:108-129 | A row is kept iff no slot is blacklisted, neither score is −1, red1/red2/blue1/blue2 are present, and from 2005 also red3/blue3 |
| Matches.FilterMatchesSpec | src/statanaut_model_testing/model_test.py:108-129 | The kept rows are exactly the input rows passing the masks, the filter works row by row over concatenation, and filtering twice is filtering once |
| Matches.KeptMatchHasNoBlacklistedTeam | src/statanaut_model_testing/model_test.py:17-38 | No kept row names one of the placeholder teams frc9980–frc9999 |
| Matches.GetEvents | src/statanaut_model_testing/model_test.py:90-91 | An event key is listed iff some row carries it |
| Matches.GetEventsOrder | src/statanaut_model_testing/model_test.py:90-91 | Each event key is listed once, in order of first appearance |
| Matches.EventTeams | src/statanaut_model_testing/model_test.py:94-105 | A team is a participant iff it fills one of the six slots of a row of that event (empty slots contribute nothing) |
| Matches.EventTeamsCoverEventMatches | src/statanaut_model_testing/model_test.py:94-105 | The participants are exactly the teams named by the event's rows, so every row of the event names only participants |
| Matches.SeasonTeamsAreEventTeams | src/statanaut_model_testing/model_test.py:154-165 | The participants of the listed events are exactly the teams named anywhere in the season |
| Matches.GetEventsPartitionsRows | src/statanaut_model_testing/model_test.py:154-163 | The events' row selections together hold exactly as many rows as the season, and as multisets they equal the season's rows, so every row, duplicates included, is played exactly as often as the table holds it |
| Breakdowns.TeleopKeysCoverage | src/statanaut_model_testing/model_test.py:248-259 | The teleop table covers 2016–2024 except 2021; each entry has one or two keys, and 2023's includes linkPoints |
| Breakdowns.SumFields | src/statanaut_model_testing/model_test.py:261-262 | The sum succeeds iff every key is present, and then it is 0, the one field, or the two fields added for lists of up to two keys; a failure names a listed key that is missing |
| Breakdowns.SumFieldsAppend | src/statanaut_model_testing/model_test.py:261-262 | The sum over two key lists joined is the sum of the two sums |
| Breakdowns.BreakdownMatchSucceedsIff | src/statanaut_model_testing/model_test.py:240-283 | Decoding succeeds iff the year is in the table and both breakdowns have every counted key and teleopPoints; an unmapped year fails as such |
| Breakdowns.BreakdownMatchSums | src/statanaut_model_testing/model_test.py:245-274 | For each alliance, auto is autoPoints (0 when missing), teleop is the sum of the season's teleop fields, and teleop plus endgame equals teleopPoints, plus linkPoints in 2023 |
| Components.CountMatch | src/statanaut_model_testing/model_test.py:405-428 | Each component's running total grows by both alliances' points for that component, the count grows by exactly 2, and so the points total grows by both alliances' totals |
| Components.ComponentScalers | src/statanaut_model_testing/model_test.py:286-305 | Whenever the scalers exist, they sum to 1 |
| Components.ComponentScalersSpec | src/statanaut_model_testing/model_test.py:286-305 | Count 0 gives 1/3 each; otherwise it fails iff the points total is 0, else each scaler is that component's share of all points |
| Components.CombinePredictions | src/statanaut_model_testing/model_test.py:376-390 | The normalised red and blue predictions sum to 1 |
| Components.CombinePredictionsIsMix | src/statanaut_model_testing/model_test.py:376-390 | The normalisation divides by 1: red's prediction is the scaler-weighted mix of the component predictions, in [0, 1] when no scaler is negative |
| Components.CombinePredictionsOfUnit | src/statanaut_model_testing/model_test.py:376-390 | With all the weight on one component, the combined prediction is that component's prediction |
| Tables.TrioSetGet | src/statanaut_model_testing/model_test.py:422-426 | Writing one component of a team reads back, and leaves the other two alone |
| Tables.ProjectInject | src/statanaut_model_testing/model_test.py:408-426 | Reading a component table and writing it back are inverse, and writing one component leaves the other component tables unchanged |
| Tables.PromoteCopiesEveryComponent | src/statanaut_model_testing/model_test.py:231-237 | After promotion every component table equals the legacy table, over the same teams |
| Tables.InitEvent | src/statanaut_model_testing/model_test.py:167-174 | The table gains the participants, new ones get a fresh entry, returning ones are reset, and non-participants are untouched, whatever the visiting order |
| Tables.InitLegacyEvent | src/statanaut_model_testing/model_test.py:167-174 | New participants get (25, 25/3) under their own name; returning ones keep mean and name with sigma 25/3; others are untouched; all sigmas stay positive |
| Tables.InitComponentEvent | src/statanaut_model_testing/model_test.py:339-352 | New participants get (25, 25/3) named team_component in each component; returning ones get all three sigmas reset to 25/3; others are untouched |
| Tables.WriteBack | src/statanaut_model_testing/model_test.py:209-213 | After writing the values to the keys in turn, the last write to each key wins, unwritten keys keep their entries, and every entry is either old or one of the written values |
| Tables.Lookup | src/statanaut_model_testing/model_test.py:194-195 | The alliance ratings are the table's entries for the listed keys, in order |
| Replay.PlayedOnDeterminesTable | src/statanaut_model_testing/model_test.py:209-213 | The write-back outcome (keys kept, others untouched, last position wins, blue after red) determines the new table uniquely |
| Replay.RateAndWrite | src/statanaut_model_testing/model_test.py:194-213 | Rating two alliances and writing red then blue back yields the table so determined, with every sigma positive |
| Replay.LegacyAlliancesAreMatchTeams | src/statanaut_model_testing/model_test.py:177-183 | Each legacy alliance lists two or three teams, and they are exactly the row's teams |
| Replay.LegacyRecord | src/statanaut_model_testing/model_test.py:188-216 | The recorded prediction lies in [0, 1], and the outcome is 1 iff red scored strictly more, 0 otherwise (a tie is 0) |
| Replay.PlayLegacyMatch | src/statanaut_model_testing/model_test.py:176-216 | One legacy row records the pre-match prediction and writes the rated alliances back, changing only the row's teams and keeping sigmas positive |
| Replay.ComponentAlliancesAreLegacy | src/statanaut_model_testing/model_test.py:355-356 | On a row with all six slots, the three-team alliances are the legacy alliances |
| Replay.PointsAddUp | src/statanaut_model_testing/model_test.py:367-368 | The three component points of an alliance add up to the score the outcome is decided on |
| Replay.ComponentWin | src/statanaut_model_testing/model_test.py:379-382 | Each component prediction is a probability pair summing to 1 |
| Replay.ComponentPrediction | src/statanaut_model_testing/model_test.py:376-390 | The match prediction sums to 1 with blue's, and lies in [0, 1] when no scaler is negative |
| Replay.ComponentPredictionOfUnit | src/statanaut_model_testing/model_test.py:376-390 | With all the weight on one component, the match prediction is that component's prediction |
| Replay.RateComponent | src/statanaut_model_testing/model_test.py:392-426 | Rating one component plays that component's table like a legacy match on its points and leaves the other two component tables unchanged |
| Replay.PlayComponentMatch | src/statanaut_model_testing/model_test.py:354-431 | Decoding failure or a zero scaler total fails as such. Otherwise the totals are updated, the record holds the weighted pre-match prediction and 1 iff red's decoded total is strictly higher, and each component table is played on its own points |
| Replay.WrittenTwice | src/statanaut_model_testing/model_test.py:209-213 | After red's then blue's ratings are written back, the keys stay, every other entry stays, each blue key holds the rating of its last blue position, and each red key blue does not write holds the rating of its last red position |
| Matches.EventRowsMembers | src/statanaut_model_testing/model_test.py:154-163 | A row is among the listed events' rows iff it is a row of the season whose event is listed |
| Seasons.KeptRowsArePlayable | src/statanaut_model_testing/model_test.py:122-127 | A kept row has red1/red2/blue1/blue2, and from 2005 all six slots |
| Seasons.EventRowsOf | src/statanaut_model_testing/model_test.py:152-165 | The rows of an event are the kept rows carrying its key, in table order; each one is kept, can be played the legacy way (from 2005 with six slots), and names only the event's participants |
| Seasons.LegacyRowsPlayed | src/statanaut_model_testing/model_test.py:176-216 | Playing rows in order keeps the table's teams and positive sigmas and gives exactly one record per row |
| Seasons.LegacyRowsPrefix | src/statanaut_model_testing/model_test.py:176-216 | The first j rows give the first j records, so a later row never changes an earlier record |
| Seasons.LegacyRowsTrace | src/statanaut_model_testing/model_test.py:194-216 | Row i's record is the prediction and outcome on the table that the rows before it leave, so each row is predicted before it is rated |
| Seasons.LegacyRowsStep | src/statanaut_model_testing/model_test.py:194-213 | The table after row i is the table before it with row i rated and written back |
| Seasons.LegacyRowsSteps | src/statanaut_model_testing/model_test.py:176-216 | For every row at once: it is recorded on the table the earlier rows leave and then rated on that table |
| Seasons.LegacyRowsFrame | src/statanaut_model_testing/model_test.py:176-213 | A team that no row names keeps its entry |
| Seasons.LegacyRowsRecords | src/statanaut_model_testing/model_test.py:188-216 | Every record holds a probability, and its outcome is 1 iff red scored strictly more in that row |
| Seasons.PlayLegacyRows | src/statanaut_model_testing/model_test.py:176-216 | The row loop computes the reference fold: each row is recorded on the table the earlier rows leave, then rated and written back; keys and positive sigmas are kept and unnamed teams are untouched |
| Seasons.LegacyEventPlayed | src/statanaut_model_testing/model_test.py:163-216 | An event adds exactly its participants to the table, keeps sigmas positive, and gives one record per row of the event |
| Seasons.LegacyEventFrame | src/statanaut_model_testing/model_test.py:165-216 | A team that does not take part in the event keeps its entry |
| Seasons.LegacyEventRecords | src/statanaut_model_testing/model_test.py:176-216 | Each record of an event holds a probability and the outcome of its row |
| Seasons.LegacyEventEntersReset | src/statanaut_model_testing/model_test.py:167-216 | A participant enters its first row of the event with sigma 25/3 and the mean it had before the event (25 if new), and that row is predicted on the table the earlier rows leave |
| Seasons.PlayLegacyEvent | src/statanaut_model_testing/model_test.py:160-216 | One event computes the reference fold: the participants are started, the table gains exactly them, others keep their entries, each row is recorded on the table the earlier rows leave, and every participant enters its first row reset |
| Seasons.LegacyEventsPlayed | src/statanaut_model_testing/model_test.py:160-216 | The listed events add exactly their participants and give one record per row of those events |
| Seasons.LegacyEventsFrame | src/statanaut_model_testing/model_test.py:160-216 | A team that takes part in none of the events keeps its entry |
| Seasons.LegacyEventsRecords | src/statanaut_model_testing/model_test.py:160-216 | The records follow the events' rows in replay order: each holds a probability and the outcome of its row |
| Seasons.PlayLegacyEvents | src/statanaut_model_testing/model_test.py:160-216 | The event loop computes the reference fold, adds exactly the events' participants, leaves other teams alone, and records each row's probability and outcome in replay order |
| Seasons.LegacySeasonPlayed | src/statanaut_model_testing/model_test.py:152-216 | A legacy season adds exactly the season's teams and gives one record per kept row |
| Seasons.PlayLegacySeason | src/statanaut_model_testing/model_test.py:146-216 | A legacy season is its events in order of first appearance: exactly the season's teams are added, other teams are untouched, sigmas stay positive, and there is one record per kept row with that row's probability and outcome |
| Seasons.ComponentRowsPlayed | src/statanaut_model_testing/model_test.py:354-431 | On success the tables keep their teams and positive sigmas, there is one record per row, and the count grew by 2 per row |
| Seasons.ComponentRowsFailedPrefix | src/statanaut_model_testing/model_test.py:354-431 | Once a row fails, no later row is played: the rows fail with that row's error |
| Seasons.ComponentRowsPrefix | src/statanaut_model_testing/model_test.py:354-431 | When the rows succeed, every prefix succeeds with the matching prefix of the records |
| Seasons.ComponentRowsTrace | src/statanaut_model_testing/model_test.py:354-431 | On success row i's record is the scaler-weighted prediction on the state the earlier rows leave, with scalers from the totals so far, and the outcome on the decoded totals |
| Seasons.ComponentRowsStep | src/statanaut_model_testing/model_test.py:354-428 | On success the state after row i is the state before it with each component table rated on that component's points and the points counted |
| Seasons.ComponentRowsSteps | src/statanaut_model_testing/model_test.py:354-431 | For every row at once: it is recorded and then rated on the state the earlier rows leave |
| Seasons.ComponentRowsRecords | src/statanaut_model_testing/model_test.py:354-431 | On success every row decoded, and its record's outcome is 1 iff red's decoded total is strictly higher |
| Seasons.ComponentRowsFrame | src/statanaut_model_testing/model_test.py:354-426 | On success a team that no row names keeps its three ratings |
| Seasons.ComponentRowsFailure | src/statanaut_model_testing/model_test.py:354-431 | A failure is a zero component total or a row whose breakdown does not decode |
| Seasons.PlayComponentRows | src/statanaut_model_testing/model_test.py:354-431 | The row loop computes the reference fold and stops at the first failure; on success each row is recorded and rated on the state the earlier rows leave, teams and positive sigmas are kept, unnamed teams are untouched, and the count grew by 2 per row |
| Seasons.ComponentEventPlayed | src/statanaut_model_testing/model_test.py:335-431 | On success an event adds exactly its participants, keeps sigmas positive, and gives one record and two counted scores per row of the event |
| Seasons.ComponentEventRecords | src/statanaut_model_testing/model_test.py:354-431 | On success every row of the event decoded, and its record's outcome follows its decoded totals |
| Seasons.ComponentEventEntersReset | src/statanaut_model_testing/model_test.py:339-431 | A participant that reaches its first row of the event enters it with all three sigmas 25/3 and its earlier means (25 if new) |
| Seasons.ComponentEventFailure | src/statanaut_model_testing/model_test.py:335-431 | An event fails on a zero component total or on a kept row whose breakdown does not decode |
| Seasons.PlayComponentEvent | src/statanaut_model_testing/model_test.py:332-431 | One event computes the reference fold: on success exactly the participants are added, others keep their entries, and every row decoded; every participant enters its first row reset; a failure is classified as above |
| Seasons.ComponentEventsPlayed | src/statanaut_model_testing/model_test.py:332-431 | On success the listed events add exactly their participants, with one record and two counted scores per row of those events |
| Seasons.ComponentEventsFailedPrefix | src/statanaut_model_testing/model_test.py:332-431 | Once an event fails, no later event is played |
| Seasons.ComponentEventsFrame | src/statanaut_model_testing/model_test.py:332-431 | On success a team that takes part in none of the events keeps its ratings |
| Seasons.ComponentEventsRecords | src/statanaut_model_testing/model_test.py:332-431 | On success the records follow the events' rows in replay order, each with the outcome of its decoded totals |
| Seasons.ComponentEventsFailure | src/statanaut_model_testing/model_test.py:332-431 | A failure is a zero component total or a kept row whose breakdown does not decode |
| Seasons.PlayComponentEvents | src/statanaut_model_testing/model_test.py:332-431 | The event loop computes the reference fold and stops at the first failure, with the accounting, records and failure causes above |
| Seasons.ComponentSeasonPlayed | src/statanaut_model_testing/model_test.py:314-431 | From zero totals, on success exactly the season's teams are added, with one record per kept row and a count of 2 per kept row |
| Seasons.ComponentSeasonFailure | src/statanaut_model_testing/model_test.py:314-431 | A component season fails on a zero component total or on a kept row whose breakdown does not decode |
| Seasons.PlayComponentSeason | src/statanaut_model_testing/model_test.py:314-431 | A component season is its events from zero totals: on success every kept row decoded and was played once, exactly the season's teams are added, others are untouched, sigmas stay positive, and each record has its row's outcome; a failure is classified as above |
| Seasons.TeamsBetweenMembers | src/statanaut_model_testing/model_test.py:146-165 | The teams of the season files in a year range are exactly the teams named by kept rows of those files |
| Seasons.SeasonsUpToAppend | src/statanaut_model_testing/model_test.py:146-150 | A year with a file adds its season last, keeping one season per file in year order |
| Seasons.LegacyYearPlayed | src/statanaut_model_testing/model_test.py:146-226 | On success a legacy year keeps every sigma positive |
| Seasons.LegacyYearKeepsUpTo | src/statanaut_model_testing/model_test.py:146-226 | A legacy year extends the seasons and the table by that year's file, or fails with EmptySeason exactly on a file with no kept row |
| Seasons.LegacyYearsPlayed | src/statanaut_model_testing/model_test.py:146-226 | On success the legacy years keep every sigma positive |
| Seasons.LegacyYearsUpTo | src/statanaut_model_testing/model_test.py:146-226 | The legacy years up to a year give one season per file in order and a table of exactly their teams, or fail on the first file with no kept row |
| Seasons.LegacyYearsFailed | src/statanaut_model_testing/model_test.py:146-226 | Once the legacy years fail, every later end year fails the same way |
| Seasons.ReplayLegacyYear | src/statanaut_model_testing/model_test.py:146-226 | One legacy year computes the reference step, and extends the seasons or fails with EmptySeason on a file with no kept row |
| Seasons.ReplayLegacy | src/statanaut_model_testing/model_test.py:146-229 | From an empty table, the legacy seasons produce one season of records per file in year order, a table of exactly their teams, positive sigmas; failure is the first legacy file with no kept row |
| Seasons.ComponentYearPlayed | src/statanaut_model_testing/model_test.py:308-448 | On success a component year keeps every sigma positive |
| Seasons.ComponentYearKeepsUpTo | src/statanaut_model_testing/model_test.py:308-448 | A component year extends the seasons and tables by that year's file, or fails for that file: EmptySeason when it has no kept row, BadBreakdown when one of its kept rows does not decode |
| Seasons.ComponentYearsPlayed | src/statanaut_model_testing/model_test.py:308-448 | On success the component years keep every sigma positive |
| Seasons.ComponentYearsKeep | src/statanaut_model_testing/model_test.py:308-448 | When the component years succeed, every file up to the end year has its season and the tables hold exactly the teams named |
| Seasons.ComponentYearsStop | src/statanaut_model_testing/model_test.py:308-448 | When the component years fail, an EmptySeason names a component file with no kept row and a BadBreakdown comes from a kept row of a component file |
| Seasons.ComponentYearsUpTo | src/statanaut_model_testing/model_test.py:308-448 | The component years either establish the seasons and tables up to the end year, or fail for a reason of one component file |
| Seasons.ComponentYearsFailed | src/statanaut_model_testing/model_test.py:308-448 | Once the component years fail, every later end year fails the same way |
| Seasons.ReplayComponentYear | src/statanaut_model_testing/model_test.py:308-448 | One component year computes the reference step, and extends the seasons or fails for a reason of that year's file |
| Seasons.ReplayComponents | src/statanaut_model_testing/model_test.py:308-448 | The component seasons extend the seasons and tables to every file up to 2024; an empty-season failure names a component-era file with no kept rows, and a decoding failure comes from a kept row |
| Seasons.HistoryPlayed | src/statanaut_model_testing/model_test.py:146-448 | On success the whole replay keeps every sigma positive |
| Seasons.ReplayHistory | src/statanaut_model_testing/model_test.py:146-448 | The whole replay computes the reference: on success one season per file from 2002 to 2024 in order, one record per kept row, a table of exactly the named teams with positive sigmas; a first empty legacy file is the failure; empty-season and decoding failures name their file and row |

## Left out

- Reading the season CSV files, JSON `loads` of the breakdowns, pandas DataFrame mechanics and `tqdm` progress bars (`model_test.py:147-150, 309-317, 159-161, 331-333`).
  - The files become a `map` from year to rows, and a missing file is a missing year.
  - A breakdown is a `map` from field name to integer points.
  - A missing team slot (NaN) is `None`.
- Printing and plotting: `print_top_teams`, `print_stats`, the `PRINT_TEAMS`/`SHOW_PLOT` flags and matplotlib (`model_test.py:9-11, 49-87, 132-143, 450-472`). From the season-end summary, the model keeps only the call to the scalers, because it can fail.
- The per-season statistics: accuracy, baseline and Brier score (`model_test.py:218-229, 433-448`). These are foreign `sklearn` calls. The model returns each season's records, which those statistics are computed from. It keeps the division by the number of records only as the `EmptySeason` failure.
- float32 rounding and numpy dtype coercions in the constructor, setters, aggregation and update (`rating.py:13-14, 29, 37`; `model.py:6-7, 15-20, 36, 60`). All arithmetic is exact `real` arithmetic, and `np.isclose` in `__eq__` is exact equality.
- Ratings.EqualsIsEquivalence: holds for the exact-equality model of `__eq__`; `np.isclose` itself is not transitive.
- The numerics of `NormalDist.cdf`, `np.sqrt` and `np.log2`. They are a parameter constrained only by the laws listed above.
- `Rating.__hash__`, `__str__` and `__repr__` (`rating.py:39-51`): display and hashing only.
- The openskill-based scripts. Their updates come from an external library whose code is not part of this model.
- The order in which `get_event_teams` lists participants (it comes from a set). The event start is modelled for any visiting order, and its result does not depend on that order.
- Python object aliasing after the promotion, where one Rating object is shared by all three components. The only in-place change is the event-start sigma reset, which writes the same value through every alias. Every other update replaces the dictionary entry, so value semantics give the same tables.
- Replay.ComponentPrediction: red's prediction is stated to lie in [0, 1] only when no scaler is negative. A breakdown can make a component's points negative (endgame is a difference), and then a scaler can be negative.
- Seasons.ReplayHistory: its ensures do not say which row or season-end call raised a ZeroComponentTotal failure; that follows only from `HistoryPlayed`, which the result equals.
- Missing scores and event keys (NaN in the CSV files). Every score is an integer and every event key a string. A NaN score passes the `!= -1` filter (`model_test.py:119`), and `rate` would then turn the means of that row's teams into NaN. A NaN event key is listed by `get_events` but selects no row at `model_test.py:163`, so its rows would never be played, whereas the model plays every kept row.
- The ValueError that `brier_score_loss` raises for a prediction outside [0, 1] (`model_test.py:224, 439`). A negative scaler can push a component prediction outside [0, 1]. The model returns such records instead of failing, because the statistics are a foreign `sklearn` call.
