/** The replay of model_test.py at the level of one match: the alliances a row
    names, the prediction it records, and how the rated alliances are written back
    into the legacy table (2002-2015, one rating per team) or into one component of
    the component table (2016-2024, three ratings per team). */
module Replay {
  import opened Wrappers
  import opened RealMath
  import opened Ratings
  import opened Model
  import opened Seqs
  import opened Matches
  import opened Breakdowns
  import opened Components
  import opened Tables

  /** One replayed match: red's predicted win probability, and 1 when red won. */
  datatype Record = Record(prediction: real, outcome: int)

  /** Only a strictly higher red score counts as a red win; a tie is recorded as 0. */
  function RedWon(redScore: int, blueScore: int): int {
    if redScore > blueScore then 1 else 0
  }

  /** Two alliances whose ratings can be looked up and rated. */
  predicate Rateable(table: map<string, Rating>, redKeys: seq<string>, blueKeys: seq<string>) {
    && |redKeys| + |blueKeys| > 0
    && (forall k :: k in redKeys ==> k in table)
    && (forall k :: k in blueKeys ==> k in table)
  }

  lemma RateableAlliancesAreValid(table: map<string, Rating>, redKeys: seq<string>, blueKeys: seq<string>)
    requires PositiveTable(table) && Rateable(table, redKeys, blueKeys)
    ensures ValidAlliances(Lookup(table, redKeys), Lookup(table, blueKeys))
  {
  }

  /** What a played match leaves in the table: the keys are unchanged, teams outside
      the match keep their entries, every blue member gets its rated entry from its
      last position in the alliance, and so does every red member that is not also
      on blue (blue is written after red). */
  predicate PlayedOn(r: map<string, Rating>, table: map<string, Rating>, redKeys: seq<string>, blueKeys: seq<string>,
                     redScore: real, blueScore: real, n: Numerics)
    requires Lawful(n) && PositiveTable(table) && Rateable(table, redKeys, blueKeys)
  {
    RateableAlliancesAreValid(table, redKeys, blueKeys);
    var rated := Rate(Lookup(table, redKeys), Lookup(table, blueKeys), redScore, blueScore, n);
    && r.Keys == table.Keys
    && (forall t :: t in table && t !in redKeys && t !in blueKeys ==> r[t] == table[t])
    && (forall i :: 0 <= i < |blueKeys| && LastAt(blueKeys, i) ==> r[blueKeys[i]] == rated.blue[i])
    && (forall i :: 0 <= i < |redKeys| && LastAt(redKeys, i) && redKeys[i] !in blueKeys ==>
          r[redKeys[i]] == rated.red[i])
  }

  /** PlayedOn pins the table down: every key of an alliance has a last position, so
      two tables that both satisfy it are the same table. */
  lemma PlayedOnDeterminesTable(r1: map<string, Rating>, r2: map<string, Rating>, table: map<string, Rating>,
                                redKeys: seq<string>, blueKeys: seq<string>, redScore: real, blueScore: real, n: Numerics)
    requires Lawful(n) && PositiveTable(table) && Rateable(table, redKeys, blueKeys)
    requires PlayedOn(r1, table, redKeys, blueKeys, redScore, blueScore, n)
    requires PlayedOn(r2, table, redKeys, blueKeys, redScore, blueScore, n)
    ensures r1 == r2
  {
    forall t | t in r1
      ensures r1[t] == r2[t]
    {
      if t in blueKeys {
        var i := LastIndex(blueKeys, t);
      } else if t in redKeys {
        var i := LastIndex(redKeys, t);
      }
    }
  }

  /** The table after a match: both alliances are rated on the table's entries, red's
      new ratings are written back, then blue's. */
  function Played(table: map<string, Rating>, redKeys: seq<string>, blueKeys: seq<string>,
                  redScore: real, blueScore: real, n: Numerics): (r: map<string, Rating>)
    requires Lawful(n) && PositiveTable(table) && Rateable(table, redKeys, blueKeys)
    ensures PlayedOn(r, table, redKeys, blueKeys, redScore, blueScore, n)
    ensures r.Keys == table.Keys && PositiveTable(r)
    ensures forall t :: t in table && t !in redKeys && t !in blueKeys ==> r[t] == table[t]
  {
    RateableAlliancesAreValid(table, redKeys, blueKeys);
    var rated := Rate(Lookup(table, redKeys), Lookup(table, blueKeys), redScore, blueScore, n);
    WrittenTwiceIsPlayed(table, redKeys, blueKeys, redScore, blueScore, rated, n);
    WrittenTwiceIsPositive(table, redKeys, blueKeys, rated.red, rated.blue);
    Written(Written(table, redKeys, rated.red), blueKeys, rated.blue)
  }

  /** Red's ratings written back, then blue's, into a table that holds every key:
      the keys stay, the other entries stay, every blue key ends with the rating of
      its last position, and so does every red key blue does not overwrite. */
  lemma WrittenTwice(table: map<string, Rating>, redKeys: seq<string>, blueKeys: seq<string>,
                     red: seq<Rating>, blue: seq<Rating>)
    requires |redKeys| == |red| && |blueKeys| == |blue|
    requires forall k :: k in redKeys ==> k in table
    requires forall k :: k in blueKeys ==> k in table
    ensures var r := Written(Written(table, redKeys, red), blueKeys, blue);
            && r.Keys == table.Keys
            && (forall t :: t in table && t !in redKeys && t !in blueKeys ==> r[t] == table[t])
            && (forall i :: 0 <= i < |blueKeys| && LastAt(blueKeys, i) ==> r[blueKeys[i]] == blue[i])
            && (forall i :: 0 <= i < |redKeys| && LastAt(redKeys, i) && redKeys[i] !in blueKeys ==>
                  r[redKeys[i]] == red[i])
  {
    var afterRed := Written(table, redKeys, red);
    var r := Written(afterRed, blueKeys, blue);
    WrittenKeys(table, redKeys, red);
    WrittenKeys(afterRed, blueKeys, blue);
    assert afterRed.Keys == table.Keys;
    WrittenKeepsUnwritten(table, redKeys, red);
    WrittenKeepsUnwritten(afterRed, blueKeys, blue);
    forall i | 0 <= i < |blueKeys| && LastAt(blueKeys, i)
      ensures r[blueKeys[i]] == blue[i]
    {
      WrittenLast(afterRed, blueKeys, blue, i);
    }
    forall i | 0 <= i < |redKeys| && LastAt(redKeys, i) && redKeys[i] !in blueKeys
      ensures r[redKeys[i]] == red[i]
    {
      WrittenLast(table, redKeys, red, i);
    }
  }

  lemma WrittenTwiceIsPlayed(table: map<string, Rating>, redKeys: seq<string>, blueKeys: seq<string>,
                             redScore: real, blueScore: real, rated: Rated, n: Numerics)
    requires Lawful(n) && PositiveTable(table) && Rateable(table, redKeys, blueKeys)
    requires ValidAlliances(Lookup(table, redKeys), Lookup(table, blueKeys))
    requires rated == Rate(Lookup(table, redKeys), Lookup(table, blueKeys), redScore, blueScore, n)
    ensures PlayedOn(Written(Written(table, redKeys, rated.red), blueKeys, rated.blue),
                     table, redKeys, blueKeys, redScore, blueScore, n)
  {
    hide Rate;
    WrittenTwice(table, redKeys, blueKeys, rated.red, rated.blue);
  }

  /** Writing positive ratings into a positive table keeps it positive. */
  lemma WrittenTwiceIsPositive(table: map<string, Rating>, redKeys: seq<string>, blueKeys: seq<string>,
                               red: seq<Rating>, blue: seq<Rating>)
    requires PositiveTable(table) && |redKeys| == |red| && |blueKeys| == |blue|
    requires AllPositive(red) && AllPositive(blue)
    ensures PositiveTable(Written(Written(table, redKeys, red), blueKeys, blue))
  {
    var afterRed := Written(table, redKeys, red);
    var r := Written(afterRed, blueKeys, blue);
    WrittenKeys(table, redKeys, red);
    WrittenKeys(afterRed, blueKeys, blue);
    WrittenKeepsUnwritten(table, redKeys, red);
    WrittenKeepsUnwritten(afterRed, blueKeys, blue);
    forall t | t in r
      ensures r[t].sigma > 0.0
    {
      if t in blueKeys {
        var i := LastIndex(blueKeys, t);
        WrittenLast(afterRed, blueKeys, blue, i);
      } else if t in redKeys {
        var i := LastIndex(redKeys, t);
        WrittenLast(table, redKeys, red, i);
      }
    }
  }

  /** The relation and the function agree: a table is what a match leaves exactly
      when it is the played table. */
  lemma PlayedOnIffPlayed(r: map<string, Rating>, table: map<string, Rating>, redKeys: seq<string>, blueKeys: seq<string>,
                          redScore: real, blueScore: real, n: Numerics)
    requires Lawful(n) && PositiveTable(table) && Rateable(table, redKeys, blueKeys)
    ensures PlayedOn(r, table, redKeys, blueKeys, redScore, blueScore, n) <==>
              r == Played(table, redKeys, blueKeys, redScore, blueScore, n)
  {
    if PlayedOn(r, table, redKeys, blueKeys, redScore, blueScore, n) {
      PlayedOnDeterminesTable(r, Played(table, redKeys, blueKeys, redScore, blueScore, n), table,
                              redKeys, blueKeys, redScore, blueScore, n);
    }
  }

  /** `ratings[team] for team in alliance` for both alliances, `model.rate`, and the
      two write-back loops, red first. */
  method RateAndWrite(table: map<string, Rating>, redKeys: seq<string>, blueKeys: seq<string>,
                      redScore: real, blueScore: real, n: Numerics)
    returns (r: map<string, Rating>)
    requires Lawful(n) && PositiveTable(table) && Rateable(table, redKeys, blueKeys)
    ensures r == Played(table, redKeys, blueKeys, redScore, blueScore, n)
    ensures PlayedOn(r, table, redKeys, blueKeys, redScore, blueScore, n)
    ensures PositiveTable(r)
  {
    RateableAlliancesAreValid(table, redKeys, blueKeys);
    var rated := Rate(Lookup(table, redKeys), Lookup(table, blueKeys), redScore, blueScore, n);
    var afterRed := WriteBack(table, redKeys, rated.red);
    r := WriteBack(afterRed, blueKeys, rated.blue);
  }

  // ---------------------------------------------------------------------------
  // Legacy matches (2002-2015)
  // ---------------------------------------------------------------------------

  /** The slots a legacy match reads unconditionally; the filter guarantees them. */
  predicate LegacyPlayable(m: Match) {
    m.red1.Some? && m.red2.Some? && m.blue1.Some? && m.blue2.Some?
  }

  /** The legacy alliance lists: the first two slots, and the third when it is filled. */
  function LegacyRed(m: Match): seq<string>
    requires LegacyPlayable(m)
  {
    [m.red1.value, m.red2.value] + (if m.red3.Some? then [m.red3.value] else [])
  }

  function LegacyBlue(m: Match): seq<string>
    requires LegacyPlayable(m)
  {
    [m.blue1.value, m.blue2.value] + (if m.blue3.Some? then [m.blue3.value] else [])
  }

  /** Each alliance lists two or three of the match's teams, and every team of the
      match is on one of them. */
  lemma LegacyAlliancesAreMatchTeams(m: Match)
    requires LegacyPlayable(m)
    ensures 2 <= |LegacyRed(m)| <= 3 && 2 <= |LegacyBlue(m)| <= 3
    ensures forall t :: t in m.Teams() <==> t in LegacyRed(m) || t in LegacyBlue(m)
  {
    var slots := m.Slots();
    assert slots[0] == m.red1 && slots[1] == m.red2 && slots[2] == m.red3;
    assert slots[3] == m.blue1 && slots[4] == m.blue2 && slots[5] == m.blue3;
    forall t | t in m.Teams()
      ensures t in LegacyRed(m) || t in LegacyBlue(m)
    {
      var j :| 0 <= j < 6 && slots[j].Some? && slots[j].value == t;
    }
  }

  /** A legacy match is played on the whole table, with the raw scores. */
  predicate LegacyReady(ratings: map<string, Rating>, m: Match) {
    PositiveTable(ratings) && LegacyPlayable(m) && m.Teams() <= ratings.Keys
  }

  lemma LegacyReadyIsRateable(ratings: map<string, Rating>, m: Match)
    requires LegacyReady(ratings, m)
    ensures Rateable(ratings, LegacyRed(m), LegacyBlue(m))
  {
    LegacyAlliancesAreMatchTeams(m);
  }

  /** The record of a legacy match: the prediction made before the update. */
  function LegacyRecord(ratings: map<string, Rating>, m: Match, n: Numerics): (rec: Record)
    requires Lawful(n) && LegacyReady(ratings, m)
    ensures 0.0 <= rec.prediction <= 1.0
    ensures rec.outcome == 1 <==> m.redScore > m.blueScore
    ensures rec.outcome == 0 <==> m.redScore <= m.blueScore
  {
    LegacyReadyIsRateable(ratings, m);
    RateableAlliancesAreValid(ratings, LegacyRed(m), LegacyBlue(m));
    Record(PredictWin(Lookup(ratings, LegacyRed(m)), Lookup(ratings, LegacyBlue(m)), n).red,
           RedWon(m.redScore, m.blueScore))
  }

  /** The table after a legacy match, played on the raw scores. Only the match's own
      teams change and every sigma stays positive. */
  function LegacyPlayed(ratings: map<string, Rating>, m: Match, n: Numerics): (r: map<string, Rating>)
    requires Lawful(n) && LegacyReady(ratings, m)
    ensures (LegacyReadyIsRateable(ratings, m);
             PlayedOn(r, ratings, LegacyRed(m), LegacyBlue(m), m.redScore as real, m.blueScore as real, n))
    ensures r.Keys == ratings.Keys && PositiveTable(r)
    ensures forall t :: t in ratings && t !in m.Teams() ==> r[t] == ratings[t]
  {
    LegacyReadyIsRateable(ratings, m);
    LegacyAlliancesAreMatchTeams(m);
    Played(ratings, LegacyRed(m), LegacyBlue(m), m.redScore as real, m.blueScore as real, n)
  }

  /** One legacy match: predict with the current ratings, rate, write back. Only the
      match's own teams change and every sigma stays positive. */
  method PlayLegacyMatch(ratings: map<string, Rating>, m: Match, n: Numerics)
    returns (r: map<string, Rating>, rec: Record)
    requires Lawful(n) && LegacyReady(ratings, m)
    ensures r == LegacyPlayed(ratings, m, n)
    ensures (LegacyReadyIsRateable(ratings, m);
             PlayedOn(r, ratings, LegacyRed(m), LegacyBlue(m), m.redScore as real, m.blueScore as real, n))
    ensures rec == LegacyRecord(ratings, m, n)
    ensures r.Keys == ratings.Keys && PositiveTable(r)
    ensures forall t :: t in ratings && t !in m.Teams() ==> r[t] == ratings[t]
  {
    LegacyReadyIsRateable(ratings, m);
    rec := LegacyRecord(ratings, m, n);
    r := RateAndWrite(ratings, LegacyRed(m), LegacyBlue(m), m.redScore as real, m.blueScore as real, n);
  }

  // ---------------------------------------------------------------------------
  // Component matches (2016-2024)
  // ---------------------------------------------------------------------------

  /** All six slots are filled, as the filter guarantees from 2005. */
  predicate Complete(m: Match) {
    LegacyPlayable(m) && m.red3.Some? && m.blue3.Some?
  }

  function ComponentRed(m: Match): seq<string>
    requires Complete(m)
  {
    [m.red1.value, m.red2.value, m.red3.value]
  }

  function ComponentBlue(m: Match): seq<string>
    requires Complete(m)
  {
    [m.blue1.value, m.blue2.value, m.blue3.value]
  }

  /** The component alliances are the legacy ones of a complete row. */
  lemma ComponentAlliancesAreLegacy(m: Match)
    requires Complete(m)
    ensures ComponentRed(m) == LegacyRed(m) && ComponentBlue(m) == LegacyBlue(m)
  {
  }

  /** A component match is played on the component tables, with the decoded points. */
  predicate ComponentReady(ratings: map<string, Trio>, m: Match) {
    PositiveTrios(ratings) && Complete(m) && m.Teams() <= ratings.Keys
  }

  lemma ComponentReadyIsRateable(ratings: map<string, Trio>, m: Match, c: Component)
    requires ComponentReady(ratings, m)
    ensures PositiveTable(Project(ratings, c))
    ensures Rateable(Project(ratings, c), ComponentRed(m), ComponentBlue(m))
    ensures LegacyReady(Project(ratings, c), m)
  {
    PositiveProjections(ratings, c);
    LegacyAlliancesAreMatchTeams(m);
  }

  /** The points of one component. */
  function Points(s: Split, c: Component): int {
    match c
    case Auto => s.auto
    case Teleop => s.teleop
    case Endgame => s.endgame
  }

  lemma PointsAddUp(s: Split)
    ensures Points(s, Auto) + Points(s, Teleop) + Points(s, Endgame) == s.Total()
  {
  }

  /** `model.predict_win` on one component's ratings. */
  function ComponentWin(ratings: map<string, Trio>, m: Match, c: Component, n: Numerics): (p: WinProbability)
    requires Lawful(n) && ComponentReady(ratings, m)
    ensures 0.0 <= p.red <= 1.0 && p.red + p.blue == 1.0
  {
    ComponentReadyIsRateable(ratings, m, c);
    RateableAlliancesAreValid(Project(ratings, c), ComponentRed(m), ComponentBlue(m));
    PredictWin(Lookup(Project(ratings, c), ComponentRed(m)), Lookup(Project(ratings, c), ComponentBlue(m)), n)
  }

  /** The match prediction: the component predictions weighted by the scalers. */
  function ComponentPrediction(ratings: map<string, Trio>, m: Match, s: Scalers, n: Numerics): (p: WinProbability)
    requires Lawful(n) && ComponentReady(ratings, m) && s.Sum() == 1.0
    ensures p.red + p.blue == 1.0
    ensures s.auto >= 0.0 && s.teleop >= 0.0 && s.endgame >= 0.0 ==> 0.0 <= p.red <= 1.0
  {
    var auto, teleop, endgame := ComponentWin(ratings, m, Auto, n), ComponentWin(ratings, m, Teleop, n),
                                 ComponentWin(ratings, m, Endgame, n);
    CombinePredictionsIsMix(auto, teleop, endgame, s);
    CombinePredictions(auto, teleop, endgame, s)
  }

  /** The weighting that puts everything on one component. */
  function Unit(c: Component): (s: Scalers)
    ensures s.Sum() == 1.0
  {
    match c
    case Auto => Scalers(1.0, 0.0, 0.0)
    case Teleop => Scalers(0.0, 1.0, 0.0)
    case Endgame => Scalers(0.0, 0.0, 1.0)
  }

  /** With all the weight on one component, the prediction is that component's. */
  lemma ComponentPredictionOfUnit(ratings: map<string, Trio>, m: Match, c: Component, n: Numerics)
    requires Lawful(n) && ComponentReady(ratings, m)
    ensures ComponentPrediction(ratings, m, Unit(c), n) == ComponentWin(ratings, m, c, n)
  {
    CombinePredictionsOfUnit(ComponentWin(ratings, m, Auto, n), ComponentWin(ratings, m, Teleop, n),
                             ComponentWin(ratings, m, Endgame, n), Unit(c));
  }

  /** One component's table after the match is played on it with the given points. */
  function ComponentTablePlayed(ratings: map<string, Trio>, m: Match, c: Component, redScore: real, blueScore: real,
                                n: Numerics): (r: map<string, Rating>)
    requires Lawful(n) && ComponentReady(ratings, m)
    ensures (ComponentReadyIsRateable(ratings, m, c);
             PlayedOn(r, Project(ratings, c), ComponentRed(m), ComponentBlue(m), redScore, blueScore, n))
    ensures r.Keys == ratings.Keys && PositiveTable(r)
    ensures forall t :: t in ratings && t !in m.Teams() ==> r[t] == Project(ratings, c)[t]
  {
    ComponentReadyIsRateable(ratings, m, c);
    LegacyAlliancesAreMatchTeams(m);
    Played(Project(ratings, c), ComponentRed(m), ComponentBlue(m), redScore, blueScore, n)
  }

  /** The tables after one component of a match is rated: that component's table is
      played like a legacy table on the given points, and the other two components
      are untouched. */
  function ComponentRated(ratings: map<string, Trio>, m: Match, c: Component, redScore: int, blueScore: int,
                          n: Numerics): (r: map<string, Trio>)
    requires Lawful(n) && ComponentReady(ratings, m)
    ensures Project(r, c) == ComponentTablePlayed(ratings, m, c, redScore as real, blueScore as real, n)
    ensures forall d :: d != c ==> Project(r, d) == Project(ratings, d)
    ensures r.Keys == ratings.Keys && ComponentReady(r, m)
    ensures forall t :: t in ratings && t !in m.Teams() ==> r[t] == ratings[t]
  {
    var updated := ComponentTablePlayed(ratings, m, c, redScore as real, blueScore as real, n);
    InjectPlayed(ratings, m, c, updated);
    Inject(ratings, c, updated)
  }

  /** Writing a component table back into the trios, when the table keeps the keys
      and positive sigmas and changes only the match's teams. */
  lemma InjectPlayed(ratings: map<string, Trio>, m: Match, c: Component, updated: map<string, Rating>)
    requires ComponentReady(ratings, m)
    requires updated.Keys == ratings.Keys && PositiveTable(updated)
    requires forall t :: t in ratings && t !in m.Teams() ==> updated[t] == Project(ratings, c)[t]
    ensures Project(Inject(ratings, c, updated), c) == updated
    ensures forall d :: d != c ==> Project(Inject(ratings, c, updated), d) == Project(ratings, d)
    ensures ComponentReady(Inject(ratings, c, updated), m)
    ensures forall t :: t in ratings && t !in m.Teams() ==> Inject(ratings, c, updated)[t] == ratings[t]
  {
    var r := Inject(ratings, c, updated);
    forall d | d != c
      ensures Project(r, d) == Project(ratings, d)
    {
      ProjectInject(ratings, c, d, updated);
    }
    ProjectInject(ratings, c, c, updated);
    PositiveProjections(ratings, Auto);
    PositiveProjections(r, c);
    forall t | t in ratings && t !in m.Teams()
      ensures r[t] == ratings[t]
    {
      TrioSetGet(ratings[t], c, c, Project(ratings, c)[t]);
    }
  }

  /** The update of one component: its table is played like a legacy table with that
      component's points, and the other two components are untouched. */
  method RateComponent(ratings: map<string, Trio>, m: Match, c: Component, redScore: int, blueScore: int, n: Numerics)
    returns (r: map<string, Trio>)
    requires Lawful(n) && ComponentReady(ratings, m)
    ensures r == ComponentRated(ratings, m, c, redScore, blueScore, n)
    ensures Project(r, c) == ComponentTablePlayed(ratings, m, c, redScore as real, blueScore as real, n)
    ensures forall d :: d != c ==> Project(r, d) == Project(ratings, d)
  {
    var updated := PlayComponentTable(ratings, m, c, redScore as real, blueScore as real, n);
    r := Inject(ratings, c, updated);
  }

  /** The rate and write-back of one component's table. */
  method PlayComponentTable(ratings: map<string, Trio>, m: Match, c: Component, redScore: real, blueScore: real,
                            n: Numerics)
    returns (updated: map<string, Rating>)
    requires Lawful(n) && ComponentReady(ratings, m)
    ensures updated == ComponentTablePlayed(ratings, m, c, redScore, blueScore, n)
  {
    ComponentReadyIsRateable(ratings, m, c);
    updated := RateAndWrite(Project(ratings, c), ComponentRed(m), ComponentBlue(m), redScore, blueScore, n);
  }

  /** Why a replay stops: a breakdown that cannot be decoded (the KeyError of
      `breakdown_match`), a zero component total (the ZeroDivisionError of
      `score_count_to_component_scalers`), or a season without a single kept match
      (the ZeroDivisionError of the season's statistics). */
  datatype ReplayError = BadBreakdown(cause: BreakdownError) | ZeroComponentTotal | EmptySeason(year: int)

  /** The state a component match leaves: the tables, the season's running totals
      and the record. */
  datatype ComponentStep = ComponentStep(ratings: map<string, Trio>, counts: ScoreCount, rec: Record)

  /** The tables after the three components of a match are rated in turn, auto,
      teleop, endgame, each on its own points. */
  function AllRated(ratings: map<string, Trio>, m: Match, split: MatchSplit, n: Numerics): (r: map<string, Trio>)
    requires Lawful(n) && ComponentReady(ratings, m)
    ensures r.Keys == ratings.Keys && ComponentReady(r, m)
    ensures forall t :: t in ratings && t !in m.Teams() ==> r[t] == ratings[t]
  {
    var afterAuto := ComponentRated(ratings, m, Auto, split.red.auto, split.blue.auto, n);
    var afterTeleop := ComponentRated(afterAuto, m, Teleop, split.red.teleop, split.blue.teleop, n);
    ComponentRated(afterTeleop, m, Endgame, split.red.endgame, split.blue.endgame, n)
  }

  /** Rating the components in turn is the same as rating each component's table on
      its own points from the tables before the match: no component's update sees
      another's. */
  lemma AllRatedOnOwnPoints(ratings: map<string, Trio>, m: Match, split: MatchSplit, n: Numerics, c: Component)
    requires Lawful(n) && ComponentReady(ratings, m)
    ensures Project(AllRated(ratings, m, split, n), c) ==
              ComponentTablePlayed(ratings, m, c, Points(split.red, c) as real, Points(split.blue, c) as real, n)
  {
    var afterAuto := ComponentRated(ratings, m, Auto, split.red.auto, split.blue.auto, n);
    var afterTeleop := ComponentRated(afterAuto, m, Teleop, split.red.teleop, split.blue.teleop, n);
    var r := ComponentRated(afterTeleop, m, Endgame, split.red.endgame, split.blue.endgame, n);
    match c
    case Auto =>
      assert Project(r, Auto) == Project(afterAuto, Auto);
    case Teleop =>
      assert Project(afterAuto, Teleop) == Project(ratings, Teleop);
    case Endgame =>
      assert Project(afterTeleop, Endgame) == Project(ratings, Endgame);
  }

  /** A component match as a function of the tables and the running totals: the
      decode failure comes first, then the zero-total failure; otherwise the record
      is the pre-match weighted prediction with the outcome on the decoded totals,
      the tables are rated component by component, and the totals count the match. */
  function ComponentPlayed(ratings: map<string, Trio>, counts: ScoreCount, m: Match, year: int, n: Numerics)
    : (out: Result<ComponentStep, ReplayError>)
    requires Lawful(n) && ComponentReady(ratings, m)
    ensures out.Success? <==> BreakdownMatch(m, year).Success? && ComponentScalers(counts).Some?
    ensures BreakdownMatch(m, year).Failure? ==> out == Failure(BadBreakdown(BreakdownMatch(m, year).error))
    ensures BreakdownMatch(m, year).Success? && ComponentScalers(counts).None? ==> out == Failure(ZeroComponentTotal)
    ensures out.Success? ==>
              var split := BreakdownMatch(m, year).value;
              var s := ComponentScalers(counts).value;
              && out.value.counts == CountMatch(counts, split)
              && out.value.rec == Record(ComponentPrediction(ratings, m, s, n).red,
                                         RedWon(split.red.Total(), split.blue.Total()))
              && out.value.ratings == AllRated(ratings, m, split, n)
              && out.value.ratings.Keys == ratings.Keys
              && ComponentReady(out.value.ratings, m)
              && (forall t :: t in ratings && t !in m.Teams() ==> out.value.ratings[t] == ratings[t])
  {
    var decoded := BreakdownMatch(m, year);
    if decoded.Failure? then Failure(BadBreakdown(decoded.error))
    else
      var split := decoded.value;
      var scalers := ComponentScalers(counts);
      if scalers.None? then Failure(ZeroComponentTotal)
      else
        var p := ComponentPrediction(ratings, m, scalers.value, n);
        Success(ComponentStep(AllRated(ratings, m, split, n), CountMatch(counts, split),
                              Record(p.red, RedWon(split.red.Total(), split.blue.Total()))))
  }

  /** One component match: decode the breakdowns, weight the three component
      predictions by the totals so far, then rate auto, teleop and endgame in turn,
      each on its own points, and add the match's points to the totals. */
  method PlayComponentMatch(ratings: map<string, Trio>, counts: ScoreCount, m: Match, year: int, n: Numerics)
    returns (out: Result<ComponentStep, ReplayError>)
    requires Lawful(n) && ComponentReady(ratings, m)
    ensures out == ComponentPlayed(ratings, counts, m, year, n)
    ensures BreakdownMatch(m, year).Failure? ==> out == Failure(BadBreakdown(BreakdownMatch(m, year).error))
    ensures BreakdownMatch(m, year).Success? && ComponentScalers(counts).None? ==> out == Failure(ZeroComponentTotal)
    ensures out.Success? <==> BreakdownMatch(m, year).Success? && ComponentScalers(counts).Some?
    ensures out.Success? ==>
              var split := BreakdownMatch(m, year).value;
              var s := ComponentScalers(counts).value;
              && out.value.counts == CountMatch(counts, split)
              && out.value.rec == Record(ComponentPrediction(ratings, m, s, n).red,
                                         RedWon(split.red.Total(), split.blue.Total()))
              && out.value.ratings.Keys == ratings.Keys
              && ComponentReady(out.value.ratings, m)
              && (forall t :: t in ratings && t !in m.Teams() ==> out.value.ratings[t] == ratings[t])
    ensures out.Success? ==>
              var split := BreakdownMatch(m, year).value;
              forall c :: (ComponentReadyIsRateable(ratings, m, c);
                PlayedOn(Project(out.value.ratings, c), Project(ratings, c), ComponentRed(m), ComponentBlue(m),
                         Points(split.red, c) as real, Points(split.blue, c) as real, n))
  {
    var decoded := BreakdownMatch(m, year);
    if decoded.Failure? {
      return Failure(BadBreakdown(decoded.error));
    }
    var split := decoded.value;
    var scalers := ComponentScalers(counts);
    if scalers.None? {
      return Failure(ZeroComponentTotal);
    }
    var p := ComponentPrediction(ratings, m, scalers.value, n);
    var afterAuto := RateComponent(ratings, m, Auto, split.red.auto, split.blue.auto, n);
    var afterTeleop := RateComponent(afterAuto, m, Teleop, split.red.teleop, split.blue.teleop, n);
    var r := RateComponent(afterTeleop, m, Endgame, split.red.endgame, split.blue.endgame, n);
    out := Success(ComponentStep(r, CountMatch(counts, split), Record(p.red, RedWon(split.red.Total(), split.blue.Total()))));
    forall c
      ensures (ComponentReadyIsRateable(ratings, m, c);
               PlayedOn(Project(r, c), Project(ratings, c), ComponentRed(m), ComponentBlue(m),
                        Points(split.red, c) as real, Points(split.blue, c) as real, n))
    {
      AllRatedOnOwnPoints(ratings, m, split, n, c);
    }
  }
}
