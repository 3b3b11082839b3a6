/** `breakdown_match` (model_test.py): splitting each alliance's score into auto,
    teleop and endgame points from the season's score breakdown. */
module Breakdowns {
  import opened Wrappers
  import opened Matches

  /** What aborts the decoding: a season missing from the teleop table, or a
      breakdown without a field that is indexed directly (Python's KeyError). */
  datatype BreakdownError = UnknownYear(year: int) | MissingField(key: string)

  /** The breakdown fields counted as teleop game-piece points, per season. There is
      no entry for 2021. */
  function TeleopKeys(year: int): Option<seq<string>> {
    match year
    case 2016 => Some(["teleopCrossingPoints", "teleopBoulderPoints"])
    case 2017 => Some(["teleopFuelPoints", "teleopRotorPoints"])
    case 2018 => Some(["teleopOwnershipPoints", "vaultPoints"])
    case 2019 => Some(["cargoPoints", "hatchPanelPoints"])
    case 2020 => Some(["teleopCellPoints", "controlPanelPoints"])
    case 2022 => Some(["teleopCargoPoints"])
    case 2023 => Some(["teleopGamePiecePoints", "linkPoints"])
    case 2024 => Some(["teleopTotalNotePoints"])
    case _ => None
  }

  /** The seasons the table covers are 2016 to 2024 except 2021. */
  lemma TeleopKeysCoverage(year: int)
    ensures TeleopKeys(year).Some? <==> 2016 <= year <= 2024 && year != 2021
    ensures TeleopKeys(year).Some? ==> 1 <= |TeleopKeys(year).value| <= 2
    ensures TeleopKeys(year).Some? ==> "teleopPoints" !in TeleopKeys(year).value
    ensures year == 2023 ==> TeleopKeys(year) == Some(["teleopGamePiecePoints", "linkPoints"])
  {
  }

  /** `breakdown[key]`. */
  function Field(b: Breakdown, key: string): Result<int, BreakdownError> {
    if key in b then Success(b[key]) else Failure(MissingField(key))
  }

  /** `breakdown.get(key, default)`. */
  function FieldOr(b: Breakdown, key: string, default: int): int {
    if key in b then b[key] else default
  }

  /** `sum(breakdown[key] for key in keys)`: the first missing key aborts the sum. */
  function SumFields(b: Breakdown, keys: seq<string>): (r: Result<int, BreakdownError>)
    ensures r.Success? <==> forall k :: k in keys ==> k in b
    ensures r.Failure? ==> r.error.MissingField? && r.error.key in keys && r.error.key !in b
    ensures r.Success? && |keys| == 0 ==> r.value == 0
    ensures r.Success? && |keys| == 1 ==> r.value == b[keys[0]]
    ensures r.Success? && |keys| == 2 ==> r.value == b[keys[0]] + b[keys[1]]
  {
    if |keys| == 0 then Success(0)
    else
      var head :- Field(b, keys[0]);
      var rest :- SumFields(b, keys[1..]);
      assert forall k :: k in keys ==> k == keys[0] || k in keys[1..];
      Success(head + rest)
  }

  /** Summing over a concatenation of key lists adds the two sums. */
  lemma {:induction false} SumFieldsAppend(b: Breakdown, k1: seq<string>, k2: seq<string>)
    requires forall k :: k in k1 + k2 ==> k in b
    ensures SumFields(b, k1 + k2).value == SumFields(b, k1).value + SumFields(b, k2).value
  {
    if |k1| == 0 {
      assert k1 + k2 == k2;
    } else {
      assert (k1 + k2)[1..] == k1[1..] + k2;
      SumFieldsAppend(b, k1[1..], k2);
    }
  }

  /** The points of one alliance in the three components. */
  datatype Split = Split(auto: int, teleop: int, endgame: int) {
    function Total(): int {
      auto + teleop + endgame
    }
  }

  datatype MatchSplit = MatchSplit(red: Split, blue: Split)

  /** The endgame share: what the breakdown's teleop total (plus link points in 2023)
      leaves after the counted game-piece points. */
  function Endgame(b: Breakdown, year: int, teleop: int): Result<int, BreakdownError> {
    var teleopPoints :- Field(b, "teleopPoints");
    if year == 2023 then
      var linkPoints :- Field(b, "linkPoints");
      Success((teleopPoints + linkPoints) - teleop)
    else
      Success(teleopPoints - teleop)
  }

  /** `breakdown_match`, with the lookups in the order Python performs them. */
  function BreakdownMatch(m: Match, year: int): Result<MatchSplit, BreakdownError> {
    var redAuto := FieldOr(m.redBreakdown, "autoPoints", 0);
    var blueAuto := FieldOr(m.blueBreakdown, "autoPoints", 0);
    var keys :- TeleopKeys(year).ToResult(UnknownYear(year));
    var redTeleop :- SumFields(m.redBreakdown, keys);
    var blueTeleop :- SumFields(m.blueBreakdown, keys);
    var redEndgame :- Endgame(m.redBreakdown, year, redTeleop);
    var blueEndgame :- Endgame(m.blueBreakdown, year, blueTeleop);
    Success(MatchSplit(Split(redAuto, redTeleop, redEndgame), Split(blueAuto, blueTeleop, blueEndgame)))
  }

  /** The fields a season's breakdown must have for the decoding to go through. */
  predicate Decodable(b: Breakdown, keys: seq<string>) {
    && (forall k :: k in keys ==> k in b)
    && "teleopPoints" in b
  }

  /** The decoding succeeds exactly for a season in the table whose two breakdowns
      have every field it indexes; an unmapped season is reported as such. */
  lemma BreakdownMatchSucceedsIff(m: Match, year: int)
    ensures BreakdownMatch(m, year).Success? <==>
              && TeleopKeys(year).Some?
              && Decodable(m.redBreakdown, TeleopKeys(year).value)
              && Decodable(m.blueBreakdown, TeleopKeys(year).value)
    ensures TeleopKeys(year).None? ==> BreakdownMatch(m, year) == Failure(UnknownYear(year))
  {
    if TeleopKeys(year).Some? && year == 2023 {
      assert "linkPoints" in TeleopKeys(year).value;
    }
  }

  /** A decoded alliance: auto is the breakdown's autoPoints (0 when absent), teleop
      is the sum of the season's teleop fields, and teleop plus endgame is the
      breakdown's teleopPoints, plus linkPoints in 2023, so the three components add
      up to that total. */
  lemma BreakdownMatchSums(m: Match, year: int)
    requires BreakdownMatch(m, year).Success?
    ensures var split := BreakdownMatch(m, year).value;
            && AllianceSums(split.red, m.redBreakdown, year)
            && AllianceSums(split.blue, m.blueBreakdown, year)
  {
    BreakdownMatchSucceedsIff(m, year);
    if year == 2023 {
      assert "linkPoints" in TeleopKeys(year).value;
    }
  }

  predicate AllianceSums(s: Split, b: Breakdown, year: int)
    requires TeleopKeys(year).Some? && Decodable(b, TeleopKeys(year).value)
  {
    TeleopKeysCoverage(year);
    var keys := TeleopKeys(year).value;
    var extra := if year == 2023 then b["linkPoints"] else 0;
    && s.auto == FieldOr(b, "autoPoints", 0)
    && s.teleop == b[keys[0]] + (if |keys| == 2 then b[keys[1]] else 0)
    && s.teleop + s.endgame == b["teleopPoints"] + extra
    && s.Total() == FieldOr(b, "autoPoints", 0) + b["teleopPoints"] + extra
  }
}
