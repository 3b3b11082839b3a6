/** The season loops of model_test.py: filter the season's rows, walk its events in
    order of first appearance, start each event (fresh or reset entries for its
    participants) and play its rows in table order; then the whole history, the
    legacy seasons 2002-2015, the promotion, and the component seasons 2016-2024.
    Every loop has a reference fold, a function that plays the same rows one after
    the other, and the loop is proved to compute exactly that fold. */
module Seasons {
  import opened Wrappers
  import opened RealMath
  import opened Ratings
  import opened Seqs
  import opened Matches
  import opened Breakdowns
  import opened Components
  import opened Tables
  import opened Replay

  /** The rows of a kept season can be played in the legacy way. */
  lemma KeptRowsArePlayable(ms: seq<Match>, year: int, m: Match)
    requires m in FilterMatches(ms, year)
    ensures Keep(m, year) && LegacyPlayable(m)
    ensures year >= 2005 ==> Complete(m)
  {
    KeepSpelledOut(m, year);
  }

  /** The rows of an event only name the event's participants. */
  lemma EventRowsNameParticipants(kept: seq<Match>, event: string, m: Match)
    requires m in EventMatches(kept, event)
    ensures m in kept && m.Teams() <= EventTeams(kept, event)
  {
    EventTeamsCoverEventMatches(kept, event);
  }

  /** Every row can be played in the legacy way and names only teams in `teams`. */
  predicate LegacyRows(rows: seq<Match>, teams: set<string>) {
    forall i :: 0 <= i < |rows| ==> LegacyPlayable(rows[i]) && rows[i].Teams() <= teams
  }

  /** Every row has its six team slots filled and names only teams in `teams`. */
  predicate ComponentRows(rows: seq<Match>, teams: set<string>) {
    forall i :: 0 <= i < |rows| ==> Complete(rows[i]) && rows[i].Teams() <= teams
  }

  /** Team `t` plays in row `i` and in no row before it. */
  predicate FirstRowOf(rows: seq<Match>, i: int, t: string) {
    && 0 <= i < |rows|
    && t in rows[i].Teams()
    && forall j :: 0 <= j < i ==> t !in rows[j].Teams()
  }

  /** The rows of one event of a kept season, in table order. They are kept rows,
      they can be played in the legacy way, from 2005 in the component way, and they
      name only the event's participants. */
  function EventRowsOf(ms: seq<Match>, year: int, event: string): (rows: seq<Match>)
    ensures rows == EventMatches(FilterMatches(ms, year), event)
    ensures forall i :: 0 <= i < |rows| ==> rows[i] in FilterMatches(ms, year)
    ensures LegacyRows(rows, EventTeams(FilterMatches(ms, year), event))
    ensures year >= 2005 ==> ComponentRows(rows, EventTeams(FilterMatches(ms, year), event))
  {
    var rows := EventMatches(FilterMatches(ms, year), event);
    forall i | 0 <= i < |rows|
      ensures rows[i] in FilterMatches(ms, year) && LegacyPlayable(rows[i]) && (year >= 2005 ==> Complete(rows[i]))
      ensures rows[i].Teams() <= EventTeams(FilterMatches(ms, year), event)
    {
      EventRowsNameParticipants(FilterMatches(ms, year), event, rows[i]);
      KeptRowsArePlayable(ms, year, rows[i]);
    }
    rows
  }

  // ---------------------------------------------------------------------------
  // Legacy seasons (2002-2015)
  // ---------------------------------------------------------------------------

  /** Legacy rows played in order from `ratings`, on a table that already holds every
      team they name: the table they leave and one record per row. */
  function LegacyRowsPlayed(ratings: map<string, Rating>, rows: seq<Match>, teams: set<string>, n: Numerics)
    : (out: (map<string, Rating>, seq<Record>))
    requires Lawful(n) && PositiveTable(ratings) && teams <= ratings.Keys && LegacyRows(rows, teams)
    ensures PositiveTable(out.0) && out.0.Keys == ratings.Keys
    ensures |out.1| == |rows|
    decreases |rows|
  {
    if |rows| == 0 then (ratings, [])
    else
      var k := |rows| - 1;
      var prev := LegacyRowsPlayed(ratings, rows[..k], teams, n);
      (LegacyPlayed(prev.0, rows[k], n), prev.1 + [LegacyRecord(prev.0, rows[k], n)])
  }

  /** The table row `i` is played on: the one the rows before it leave. */
  function LegacyTableBefore(ratings: map<string, Rating>, rows: seq<Match>, teams: set<string>, n: Numerics,
                             i: int): (before: map<string, Rating>)
    requires Lawful(n) && PositiveTable(ratings) && teams <= ratings.Keys && LegacyRows(rows, teams)
    requires 0 <= i < |rows|
    ensures LegacyReady(before, rows[i])
  {
    LegacyRowsPlayed(ratings, rows[..i], teams, n).0
  }

  /** The rows of a prefix are rows of the same kind. */
  lemma LegacyRowsOfPrefix(rows: seq<Match>, teams: set<string>, j: int)
    requires LegacyRows(rows, teams) && 0 <= j <= |rows|
    ensures LegacyRows(rows[..j], teams)
  {
  }
  /** The table the rows up to and including row `i` leave. */
  function LegacyTableAfter(ratings: map<string, Rating>, rows: seq<Match>, teams: set<string>, n: Numerics,
                            i: int): (after: map<string, Rating>)
    requires Lawful(n) && PositiveTable(ratings) && teams <= ratings.Keys && LegacyRows(rows, teams)
    requires 0 <= i < |rows|
  {
    hide LegacyRowsPlayed, LegacyRows;
    LegacyRowsOfPrefix(rows, teams, i + 1);
    LegacyRowsPlayed(ratings, rows[..i + 1], teams, n).0
  }

  /** Playing a prefix of the rows yields a prefix of the records. */
  lemma {:induction false} LegacyRowsPrefix(ratings: map<string, Rating>, rows: seq<Match>, teams: set<string>,
                                            n: Numerics, j: int)
    requires Lawful(n) && PositiveTable(ratings) && teams <= ratings.Keys && LegacyRows(rows, teams)
    requires 0 <= j <= |rows|
    ensures LegacyRowsPlayed(ratings, rows[..j], teams, n).1 == LegacyRowsPlayed(ratings, rows, teams, n).1[..j]
    decreases |rows|
  {
    hide LegacyPlayed, LegacyRecord, PlayedOn, Match.Teams;
    if j < |rows| {
      var k := |rows| - 1;
      LegacyRowsPrefix(ratings, rows[..k], teams, n, j);
      assert rows[..k][..j] == rows[..j];
    } else {
      assert rows[..j] == rows;
    }
  }


  /** Row `i` is predicted on the table the rows before it leave: its record is the
      prediction on that table. */
  lemma LegacyRowsTrace(ratings: map<string, Rating>, rows: seq<Match>, teams: set<string>, n: Numerics, i: int)
    requires Lawful(n) && PositiveTable(ratings) && teams <= ratings.Keys && LegacyRows(rows, teams)
    requires 0 <= i < |rows|
    ensures LegacyRowsPlayed(ratings, rows, teams, n).1[i] ==
              LegacyRecord(LegacyTableBefore(ratings, rows, teams, n, i), rows[i], n)
  {
    hide LegacyPlayed, LegacyRecord, PlayedOn, Match.Teams, LegacyReady, LegacyRows, PositiveTable;
    LegacyRowsOfPrefix(rows, teams, i + 1);
    LegacyRowsOfPrefix(rows, teams, i);
    var before := LegacyTableBefore(ratings, rows, teams, n, i);
    assert rows[..i + 1][..i] == rows[..i];
    assert LegacyRowsPlayed(ratings, rows[..i + 1], teams, n).1 ==
             LegacyRowsPlayed(ratings, rows[..i], teams, n).1 + [LegacyRecord(before, rows[i], n)];
    LegacyRowsPrefix(ratings, rows, teams, n, i + 1);
  }

  /** Row `i` is then played on that table: the table after it is the table before
      it with row `i` played on it. */
  lemma LegacyRowsStep(ratings: map<string, Rating>, rows: seq<Match>, teams: set<string>, n: Numerics, i: int)
    requires Lawful(n) && PositiveTable(ratings) && teams <= ratings.Keys && LegacyRows(rows, teams)
    requires 0 <= i < |rows|
    ensures LegacyTableAfter(ratings, rows, teams, n, i) ==
              LegacyPlayed(LegacyTableBefore(ratings, rows, teams, n, i), rows[i], n)
  {
    hide LegacyPlayed, LegacyRecord, PlayedOn, Match.Teams, LegacyReady, LegacyRows, PositiveTable;
    LegacyRowsOfPrefix(rows, teams, i + 1);
    LegacyRowsOfPrefix(rows, teams, i);
    assert rows[..i + 1][..i] == rows[..i];
  }

  /** Every row is recorded on the table the rows before it leave and then played on
      it. */
  lemma LegacyRowsSteps(ratings: map<string, Rating>, rows: seq<Match>, teams: set<string>, n: Numerics)
    requires Lawful(n) && PositiveTable(ratings) && teams <= ratings.Keys && LegacyRows(rows, teams)
    ensures forall i :: 0 <= i < |rows| ==>
              && LegacyRowsPlayed(ratings, rows, teams, n).1[i] ==
                   LegacyRecord(LegacyTableBefore(ratings, rows, teams, n, i), rows[i], n)
              && LegacyTableAfter(ratings, rows, teams, n, i) ==
                   LegacyPlayed(LegacyTableBefore(ratings, rows, teams, n, i), rows[i], n)
  {
    hide LegacyPlayed, LegacyRecord, PlayedOn, Match.Teams, LegacyReady, LegacyRows, PositiveTable, LegacyRowsPlayed,
         LegacyTableBefore, LegacyTableAfter;
    forall i | 0 <= i < |rows|
      ensures LegacyRowsPlayed(ratings, rows, teams, n).1[i] ==
                LegacyRecord(LegacyTableBefore(ratings, rows, teams, n, i), rows[i], n)
      ensures LegacyTableAfter(ratings, rows, teams, n, i) ==
                LegacyPlayed(LegacyTableBefore(ratings, rows, teams, n, i), rows[i], n)
    {
      LegacyRowsTrace(ratings, rows, teams, n, i);
      LegacyRowsStep(ratings, rows, teams, n, i);
    }
  }

  /** A team no row names keeps its entry. */
  lemma {:induction false} LegacyRowsFrame(ratings: map<string, Rating>, rows: seq<Match>, teams: set<string>,
                                           n: Numerics, t: string)
    requires Lawful(n) && PositiveTable(ratings) && teams <= ratings.Keys && LegacyRows(rows, teams)
    requires t in ratings && forall i :: 0 <= i < |rows| ==> t !in rows[i].Teams()
    ensures LegacyRowsPlayed(ratings, rows, teams, n).0[t] == ratings[t]
    decreases |rows|
  {
    hide LegacyRecord, PlayedOn, Match.Teams;
    if |rows| > 0 {
      var k := |rows| - 1;
      LegacyRowsFrame(ratings, rows[..k], teams, n, t);
    }
  }

  /** Every record holds a probability and says whether red won its row. */
  lemma LegacyRowsRecords(ratings: map<string, Rating>, rows: seq<Match>, teams: set<string>, n: Numerics)
    requires Lawful(n) && PositiveTable(ratings) && teams <= ratings.Keys && LegacyRows(rows, teams)
    ensures var records := LegacyRowsPlayed(ratings, rows, teams, n).1;
            forall i :: 0 <= i < |rows| ==>
              && 0.0 <= records[i].prediction <= 1.0
              && records[i].outcome == RedWon(rows[i].redScore, rows[i].blueScore)
  {
    hide LegacyPlayed, PlayedOn, Match.Teams;
    forall i | 0 <= i < |rows|
      ensures var records := LegacyRowsPlayed(ratings, rows, teams, n).1;
              && 0.0 <= records[i].prediction <= 1.0
              && records[i].outcome == RedWon(rows[i].redScore, rows[i].blueScore)
    {
      LegacyRowsTrace(ratings, rows, teams, n, i);
    }
  }

  /** Legacy rows in order, on a table that already holds every team they name: each
      row is predicted on the table the rows before it leave, then rated. */
  method PlayLegacyRows(ratings: map<string, Rating>, rows: seq<Match>, teams: set<string>, n: Numerics)
    returns (r: map<string, Rating>, records: seq<Record>)
    requires Lawful(n) && PositiveTable(ratings) && teams <= ratings.Keys && LegacyRows(rows, teams)
    ensures (r, records) == LegacyRowsPlayed(ratings, rows, teams, n)
    ensures forall i :: 0 <= i < |rows| ==>
              && records[i] == LegacyRecord(LegacyTableBefore(ratings, rows, teams, n, i), rows[i], n)
              && LegacyTableAfter(ratings, rows, teams, n, i) ==
                   LegacyPlayed(LegacyTableBefore(ratings, rows, teams, n, i), rows[i], n)
    ensures PositiveTable(r) && r.Keys == ratings.Keys
    ensures forall t :: t in ratings && t !in teams ==> r[t] == ratings[t]
  {
    hide LegacyPlayed, LegacyRecord, PlayedOn, Match.Teams, LegacyTableBefore, LegacyTableAfter;
    r, records := ratings, [];
    for k := 0 to |rows|
      invariant (r, records) == LegacyRowsPlayed(ratings, rows[..k], teams, n)
    {
      assert rows[..k + 1][..k] == rows[..k];
      var rec;
      r, rec := PlayLegacyMatch(r, rows[k], n);
      records := records + [rec];
    }
    assert rows[..|rows|] == rows;
    LegacyRowsSteps(ratings, rows, teams, n);
    forall t | t in ratings && t !in teams
      ensures r[t] == ratings[t]
    {
      LegacyRowsFrame(ratings, rows, teams, n, t);
    }
  }

  /** How a participant enters its first row of an event: its sigma is reset to
      25/3 and its mean is the one it had before the event, or 25 for a team new to
      the replay. */
  predicate LegacyEntry(before: map<string, Rating>, ratings: map<string, Rating>, t: string) {
    && t in before
    && before[t].sigma == SIGMA_RESET
    && before[t].mu == (if t in ratings then ratings[t].mu else STARTING_MU)
  }

  /** One legacy event as a function: its participants are started (fresh or with
      their sigma reset), then its rows are played in table order. The table gains
      the participants and nothing else. */
  function LegacyEventPlayed(ratings: map<string, Rating>, ms: seq<Match>, year: int, event: string, n: Numerics)
    : (out: (map<string, Rating>, seq<Record>))
    requires Lawful(n) && PositiveTable(ratings)
    ensures PositiveTable(out.0)
    ensures out.0.Keys == ratings.Keys + EventTeams(FilterMatches(ms, year), event)
    ensures |out.1| == |EventRowsOf(ms, year, event)|
  {
    var teams := EventTeams(FilterMatches(ms, year), event);
    LegacyRowsPlayed(LegacyStarted(ratings, teams), EventRowsOf(ms, year, event), teams, n)
  }

  /** The table row `i` of an event is played on. */
  function LegacyEventTableBefore(ratings: map<string, Rating>, ms: seq<Match>, year: int, event: string,
                                  n: Numerics, i: int): (before: map<string, Rating>)
    requires Lawful(n) && PositiveTable(ratings) && 0 <= i < |EventRowsOf(ms, year, event)|
    ensures LegacyReady(before, EventRowsOf(ms, year, event)[i])
  {
    var teams := EventTeams(FilterMatches(ms, year), event);
    LegacyTableBefore(LegacyStarted(ratings, teams), EventRowsOf(ms, year, event), teams, n, i)
  }

  /** A team that does not take part in the event keeps its entry. */
  lemma LegacyEventFrame(ratings: map<string, Rating>, ms: seq<Match>, year: int, event: string, n: Numerics,
                         t: string)
    requires Lawful(n) && PositiveTable(ratings)
    requires t in ratings && t !in EventTeams(FilterMatches(ms, year), event)
    ensures LegacyEventPlayed(ratings, ms, year, event, n).0[t] == ratings[t]
  {
    hide LegacyPlayed, LegacyRecord, PlayedOn, Match.Teams, LegacyRowsPlayed;
    var teams := EventTeams(FilterMatches(ms, year), event);
    LegacyRowsFrame(LegacyStarted(ratings, teams), EventRowsOf(ms, year, event), teams, n, t);
  }

  /** The records of an event follow its rows: each holds a probability and says
      whether red won its row. */
  lemma LegacyEventRecords(ratings: map<string, Rating>, ms: seq<Match>, year: int, event: string, n: Numerics)
    requires Lawful(n) && PositiveTable(ratings)
    ensures var records := LegacyEventPlayed(ratings, ms, year, event, n).1;
            var rows := EventRowsOf(ms, year, event);
            forall i :: 0 <= i < |records| ==>
              && 0.0 <= records[i].prediction <= 1.0
              && records[i].outcome == RedWon(rows[i].redScore, rows[i].blueScore)
  {
    hide LegacyPlayed, LegacyRecord, PlayedOn, Match.Teams, LegacyRowsPlayed;
    var teams := EventTeams(FilterMatches(ms, year), event);
    var rows := EventRowsOf(ms, year, event);
    var start := LegacyStarted(ratings, teams);
    LegacyRowsRecords(start, rows, teams, n);
    assert LegacyEventPlayed(ratings, ms, year, event, n) == LegacyRowsPlayed(start, rows, teams, n);
  }

  /** Every participant enters its first row of the event as LegacyEntry says, and
      that row's record is the prediction on the table the rows before it leave. */
  lemma LegacyEventEntersReset(ratings: map<string, Rating>, ms: seq<Match>, year: int, event: string,
                               n: Numerics, i: int, t: string)
    requires Lawful(n) && PositiveTable(ratings)
    requires FirstRowOf(EventRowsOf(ms, year, event), i, t)
    ensures LegacyEntry(LegacyEventTableBefore(ratings, ms, year, event, n, i), ratings, t)
    ensures LegacyEventPlayed(ratings, ms, year, event, n).1[i] ==
              LegacyRecord(LegacyEventTableBefore(ratings, ms, year, event, n, i), EventRowsOf(ms, year, event)[i], n)
  {
    hide LegacyPlayed, LegacyRecord, PlayedOn, Match.Teams, EventTeams, FilterMatches;
    var teams := EventTeams(FilterMatches(ms, year), event);
    var rows := EventRowsOf(ms, year, event);
    var start := LegacyStarted(ratings, teams);
    LegacyRowsFrame(start, rows[..i], teams, n, t);
    LegacyRowsTrace(start, rows, teams, n, i);
  }

  /** One legacy event: its participants are started, then its rows are played in
      table order, each predicted on the table the rows before it leave. */
  method PlayLegacyEvent(ratings: map<string, Rating>, ms: seq<Match>, year: int, event: string, n: Numerics)
    returns (r: map<string, Rating>, records: seq<Record>)
    requires Lawful(n) && PositiveTable(ratings)
    ensures (r, records) == LegacyEventPlayed(ratings, ms, year, event, n)
    ensures PositiveTable(r)
    ensures r.Keys == ratings.Keys + EventTeams(FilterMatches(ms, year), event)
    ensures forall t :: t in ratings && t !in EventTeams(FilterMatches(ms, year), event) ==> r[t] == ratings[t]
    ensures |records| == |EventRowsOf(ms, year, event)|
    ensures forall i :: 0 <= i < |records| ==>
              records[i] == LegacyRecord(LegacyEventTableBefore(ratings, ms, year, event, n, i),
                                         EventRowsOf(ms, year, event)[i], n)
    ensures forall i, t :: FirstRowOf(EventRowsOf(ms, year, event), i, t) ==>
              LegacyEntry(LegacyEventTableBefore(ratings, ms, year, event, n, i), ratings, t)
  {
    hide LegacyPlayed, LegacyRecord, PlayedOn, Match.Teams;
    var teams := EventTeams(FilterMatches(ms, year), event);
    var start := InitLegacyEvent(ratings, teams);
    r, records := PlayLegacyRows(start, EventRowsOf(ms, year, event), teams, n);
    forall i, t | FirstRowOf(EventRowsOf(ms, year, event), i, t)
      ensures LegacyEntry(LegacyEventTableBefore(ratings, ms, year, event, n, i), ratings, t)
    {
      LegacyEventEntersReset(ratings, ms, year, event, n, i, t);
    }
  }

  /** The listed legacy events played in order from `ratings`: the table gains exactly
      their participants, and there is one record per row of those events. */
  function LegacyEventsPlayed(ratings: map<string, Rating>, ms: seq<Match>, year: int, events: seq<string>,
                              n: Numerics): (out: (map<string, Rating>, seq<Record>))
    requires Lawful(n) && PositiveTable(ratings)
    ensures PositiveTable(out.0)
    ensures out.0.Keys == ratings.Keys + TeamsOfEvents(FilterMatches(ms, year), events)
    ensures |out.1| == EventSizes(FilterMatches(ms, year), events)
    decreases |events|
  {
    hide LegacyEventPlayed;
    if |events| == 0 then (ratings, [])
    else
      var prev := LegacyEventsPlayed(ratings, ms, year, events[..|events| - 1], n);
      var more := LegacyEventPlayed(prev.0, ms, year, events[|events| - 1], n);
      (more.0, prev.1 + more.1)
  }

  /** A team that takes part in none of the events keeps its entry. */
  lemma {:induction false} LegacyEventsFrame(ratings: map<string, Rating>, ms: seq<Match>, year: int,
                                             events: seq<string>, n: Numerics, t: string)
    requires Lawful(n) && PositiveTable(ratings)
    requires t in ratings && t !in TeamsOfEvents(FilterMatches(ms, year), events)
    ensures LegacyEventsPlayed(ratings, ms, year, events, n).0[t] == ratings[t]
    decreases |events|
  {
    hide LegacyPlayed, LegacyRecord, PlayedOn, Match.Teams, LegacyEventPlayed;
    if |events| > 0 {
      var p := events[..|events| - 1];
      LegacyEventsFrame(ratings, ms, year, p, n, t);
      LegacyEventFrame(LegacyEventsPlayed(ratings, ms, year, p, n).0, ms, year, events[|events| - 1], n, t);
    }
  }

  /** The records follow the events' rows in replay order: each holds a probability
      and says whether red won its row. */
  lemma {:induction false} LegacyEventsRecords(ratings: map<string, Rating>, ms: seq<Match>, year: int,
                                               events: seq<string>, n: Numerics)
    requires Lawful(n) && PositiveTable(ratings)
    ensures var records := LegacyEventsPlayed(ratings, ms, year, events, n).1;
            var rows := EventRows(FilterMatches(ms, year), events);
            forall i :: 0 <= i < |records| ==>
              && 0.0 <= records[i].prediction <= 1.0
              && records[i].outcome == RedWon(rows[i].redScore, rows[i].blueScore)
    decreases |events|
  {
    hide LegacyPlayed, LegacyRecord, PlayedOn, Match.Teams, LegacyRowsPlayed, LegacyEventPlayed, LegacyStarted;
    if |events| > 0 {
      var kept := FilterMatches(ms, year);
      var p := events[..|events| - 1];
      var e := events[|events| - 1];
      var prev := LegacyEventsPlayed(ratings, ms, year, p, n);
      var more := LegacyEventPlayed(prev.0, ms, year, e, n);
      LegacyEventsRecords(ratings, ms, year, p, n);
      LegacyEventRecords(prev.0, ms, year, e, n);
      var records := LegacyEventsPlayed(ratings, ms, year, events, n).1;
      var rows := EventRows(kept, events);
      assert records == prev.1 + more.1;
      assert rows == EventRows(kept, p) + EventRowsOf(ms, year, e);
      forall i | 0 <= i < |records|
        ensures 0.0 <= records[i].prediction <= 1.0
        ensures records[i].outcome == RedWon(rows[i].redScore, rows[i].blueScore)
      {
        if i >= |prev.1| {
          assert records[i] == more.1[i - |prev.1|];
          assert rows[i] == EventRowsOf(ms, year, e)[i - |prev.1|];
        } else {
          assert records[i] == prev.1[i];
          assert rows[i] == EventRows(kept, p)[i];
        }
      }
    }
  }

  /** The listed legacy events, in order. */
  method PlayLegacyEvents(ratings: map<string, Rating>, ms: seq<Match>, year: int, events: seq<string>, n: Numerics)
    returns (r: map<string, Rating>, records: seq<Record>)
    requires Lawful(n) && PositiveTable(ratings)
    ensures (r, records) == LegacyEventsPlayed(ratings, ms, year, events, n)
    ensures PositiveTable(r)
    ensures r.Keys == ratings.Keys + TeamsOfEvents(FilterMatches(ms, year), events)
    ensures forall t :: t in ratings && t !in TeamsOfEvents(FilterMatches(ms, year), events) ==> r[t] == ratings[t]
    ensures |records| == EventSizes(FilterMatches(ms, year), events)
    ensures forall i :: 0 <= i < |records| ==>
              && 0.0 <= records[i].prediction <= 1.0
              && records[i].outcome == RedWon(EventRows(FilterMatches(ms, year), events)[i].redScore,
                                              EventRows(FilterMatches(ms, year), events)[i].blueScore)
  {
    hide LegacyPlayed, LegacyRecord, PlayedOn, Match.Teams, LegacyEventPlayed;
    r, records := ratings, [];
    for e := 0 to |events|
      invariant (r, records) == LegacyEventsPlayed(ratings, ms, year, events[..e], n)
    {
      assert events[..e + 1][..e] == events[..e];
      var more;
      r, more := PlayLegacyEvent(r, ms, year, events[e], n);
      records := records + more;
    }
    assert events[..|events|] == events;
    forall t | t in ratings && t !in TeamsOfEvents(FilterMatches(ms, year), events)
      ensures r[t] == ratings[t]
    {
      LegacyEventsFrame(ratings, ms, year, events, n, t);
    }
    LegacyEventsRecords(ratings, ms, year, events, n);
  }

  /** One legacy season as a function: its events in order of first appearance. The
      table gains the season's teams and there is one record per kept row. */
  function LegacySeasonPlayed(ratings: map<string, Rating>, ms: seq<Match>, year: int, n: Numerics)
    : (out: (map<string, Rating>, seq<Record>))
    requires Lawful(n) && PositiveTable(ratings)
    ensures PositiveTable(out.0)
    ensures out.0.Keys == ratings.Keys + SeasonTeams(FilterMatches(ms, year))
    ensures |out.1| == |FilterMatches(ms, year)|
  {
    GetEventsPartitionsRows(FilterMatches(ms, year));
    SeasonTeamsAreEventTeams(FilterMatches(ms, year));
    LegacyEventsPlayed(ratings, ms, year, GetEvents(FilterMatches(ms, year)), n)
  }

  /** One legacy season: its events in order of first appearance. Every kept row is
      played exactly once, the table gains the season's teams and nothing else, the
      other teams keep their entries, and every sigma stays positive. */
  method PlayLegacySeason(ratings: map<string, Rating>, ms: seq<Match>, year: int, n: Numerics)
    returns (r: map<string, Rating>, records: seq<Record>)
    requires Lawful(n) && PositiveTable(ratings)
    ensures (r, records) == LegacySeasonPlayed(ratings, ms, year, n)
    ensures PositiveTable(r)
    ensures r.Keys == ratings.Keys + SeasonTeams(FilterMatches(ms, year))
    ensures forall t :: t in ratings && t !in SeasonTeams(FilterMatches(ms, year)) ==> r[t] == ratings[t]
    ensures |records| == |FilterMatches(ms, year)|
    ensures var rows := EventRows(FilterMatches(ms, year), GetEvents(FilterMatches(ms, year)));
            forall i :: 0 <= i < |records| ==>
              && 0.0 <= records[i].prediction <= 1.0
              && records[i].outcome == RedWon(rows[i].redScore, rows[i].blueScore)
  {
    hide LegacyPlayed, LegacyRecord, PlayedOn, Match.Teams, LegacyEventsPlayed;
    r, records := PlayLegacyEvents(ratings, ms, year, GetEvents(FilterMatches(ms, year)), n);
    SeasonTeamsAreEventTeams(FilterMatches(ms, year));
  }

  // ---------------------------------------------------------------------------
  // Component seasons (2016-2024)
  // ---------------------------------------------------------------------------

  /** What a component season carries from row to row: the tables, the running
      component totals and the records so far. */
  datatype ComponentState = ComponentState(ratings: map<string, Trio>, counts: ScoreCount, records: seq<Record>)

  /** Component rows played in order from `ratings` and `counts`, on tables that
      already hold every team they name, stopping at the first row that fails. */
  function ComponentRowsPlayed(ratings: map<string, Trio>, counts: ScoreCount, rows: seq<Match>, year: int,
                               teams: set<string>, n: Numerics): (out: Result<ComponentState, ReplayError>)
    requires Lawful(n) && PositiveTrios(ratings) && teams <= ratings.Keys && ComponentRows(rows, teams)
    ensures out.Success? ==>
              && PositiveTrios(out.value.ratings) && out.value.ratings.Keys == ratings.Keys
              && |out.value.records| == |rows|
              && out.value.counts.count == counts.count + 2 * |rows|
    decreases |rows|
  {
    hide ComponentPlayed;
    if |rows| == 0 then Success(ComponentState(ratings, counts, []))
    else
      var k := |rows| - 1;
      var prev := ComponentRowsPlayed(ratings, counts, rows[..k], year, teams, n);
      if prev.Failure? then prev
      else
        var step := ComponentPlayed(prev.value.ratings, prev.value.counts, rows[k], year, n);
        if step.Failure? then Failure(step.error)
        else Success(ComponentState(step.value.ratings, step.value.counts, prev.value.records + [step.value.rec]))
  }

  /** What the rows before row `i` leave: the state row `i` is played on, or the
      failure of an earlier row. */
  function ComponentStateBefore(ratings: map<string, Trio>, counts: ScoreCount, rows: seq<Match>, year: int,
                                teams: set<string>, n: Numerics, i: int): (before: Result<ComponentState, ReplayError>)
    requires Lawful(n) && PositiveTrios(ratings) && teams <= ratings.Keys && ComponentRows(rows, teams)
    requires 0 <= i < |rows|
    ensures before.Success? ==> ComponentReady(before.value.ratings, rows[i])
  {
    ComponentRowsPlayed(ratings, counts, rows[..i], year, teams, n)
  }

  /** Once a prefix of the rows fails, the rows fail with the same error: no later
      row is played. */
  lemma {:induction false} ComponentRowsFailedPrefix(ratings: map<string, Trio>, counts: ScoreCount, rows: seq<Match>,
                                                     year: int, teams: set<string>, n: Numerics, j: int)
    requires Lawful(n) && PositiveTrios(ratings) && teams <= ratings.Keys && ComponentRows(rows, teams)
    requires 0 <= j <= |rows| && ComponentRowsPlayed(ratings, counts, rows[..j], year, teams, n).Failure?
    ensures ComponentRowsPlayed(ratings, counts, rows, year, teams, n) ==
              ComponentRowsPlayed(ratings, counts, rows[..j], year, teams, n)
    decreases |rows|
  {
    hide ComponentPlayed, AllRated, ComponentPrediction, CountMatch, ComponentScalers, BreakdownMatch, PlayedOn, Match.Teams;
    if j < |rows| {
      var k := |rows| - 1;
      assert rows[..k][..j] == rows[..j];
      ComponentRowsFailedPrefix(ratings, counts, rows[..k], year, teams, n, j);
    } else {
      assert rows[..j] == rows;
    }
  }

  /** When the rows succeed, every prefix succeeds with a prefix of the records. */
  lemma {:induction false} ComponentRowsPrefix(ratings: map<string, Trio>, counts: ScoreCount, rows: seq<Match>,
                                               year: int, teams: set<string>, n: Numerics, j: int)
    requires Lawful(n) && PositiveTrios(ratings) && teams <= ratings.Keys && ComponentRows(rows, teams)
    requires 0 <= j <= |rows| && ComponentRowsPlayed(ratings, counts, rows, year, teams, n).Success?
    ensures ComponentRowsPlayed(ratings, counts, rows[..j], year, teams, n).Success?
    ensures ComponentRowsPlayed(ratings, counts, rows[..j], year, teams, n).value.records ==
              ComponentRowsPlayed(ratings, counts, rows, year, teams, n).value.records[..j]
    decreases |rows|
  {
    hide ComponentPlayed, AllRated, ComponentPrediction, CountMatch, ComponentScalers, BreakdownMatch, PlayedOn, Match.Teams;
    if j < |rows| {
      var k := |rows| - 1;
      assert rows[..k][..j] == rows[..j];
      ComponentRowsPrefix(ratings, counts, rows[..k], year, teams, n, j);
    } else {
      assert rows[..j] == rows;
    }
  }

  /** The rows of a prefix are rows of the same kind. */
  lemma ComponentRowsOfPrefix(rows: seq<Match>, teams: set<string>, j: int)
    requires ComponentRows(rows, teams) && 0 <= j <= |rows|
    ensures ComponentRows(rows[..j], teams)
  {
  }

  /** `rec` is the record of row `m` played on `before`: the totals so far give
      scalers, the prediction is the weighted mix of the three component predictions
      on `before`, and the outcome says whether red won on the decoded totals. */
  predicate RowRecorded(before: ComponentState, rec: Record, m: Match, year: int, n: Numerics)
    requires Lawful(n)
  {
    && ComponentReady(before.ratings, m)
    && BreakdownMatch(m, year).Success?
    && ComponentScalers(before.counts).Some?
    && rec == Record(ComponentPrediction(before.ratings, m, ComponentScalers(before.counts).value, n).red,
                     RedWon(BreakdownMatch(m, year).value.red.Total(), BreakdownMatch(m, year).value.blue.Total()))
  }

  /** When the rows succeed, row `i` is recorded on the state the rows before it
      leave. */
  lemma ComponentRowsTrace(ratings: map<string, Trio>, counts: ScoreCount, rows: seq<Match>, year: int,
                           teams: set<string>, n: Numerics, i: int)
    requires Lawful(n) && PositiveTrios(ratings) && teams <= ratings.Keys && ComponentRows(rows, teams)
    requires 0 <= i < |rows| && ComponentRowsPlayed(ratings, counts, rows, year, teams, n).Success?
    ensures var before := ComponentStateBefore(ratings, counts, rows, year, teams, n, i);
            var records := ComponentRowsPlayed(ratings, counts, rows, year, teams, n).value.records;
            && before.Success?
            && RowRecorded(before.value, records[i], rows[i], year, n)
  {
    hide ComponentPlayed, ComponentReady, AllRated, ComponentPrediction, CountMatch, ComponentScalers, BreakdownMatch,
         PlayedOn, Match.Teams, ComponentRows, PositiveTrios;
    ComponentRowsOfPrefix(rows, teams, i + 1);
    ComponentRowsOfPrefix(rows, teams, i);
    ComponentRowsPrefix(ratings, counts, rows, year, teams, n, i + 1);
    assert rows[..i + 1][..i] == rows[..i];
  }

  /** `after` is `before` with row `m` played: its breakdown decodes, each component
      table is rated on that component's points, and the points are added to the
      totals. */
  predicate RowRated(before: ComponentState, after: ComponentState, m: Match, year: int, n: Numerics)
    requires Lawful(n)
  {
    && ComponentReady(before.ratings, m)
    && BreakdownMatch(m, year).Success?
    && after.ratings == AllRated(before.ratings, m, BreakdownMatch(m, year).value, n)
    && after.counts == CountMatch(before.counts, BreakdownMatch(m, year).value)
  }

  /** What the rows up to and including row `i` leave. */
  function ComponentStateAfter(ratings: map<string, Trio>, counts: ScoreCount, rows: seq<Match>, year: int,
                               teams: set<string>, n: Numerics, i: int): (after: Result<ComponentState, ReplayError>)
    requires Lawful(n) && PositiveTrios(ratings) && teams <= ratings.Keys && ComponentRows(rows, teams)
    requires 0 <= i < |rows|
  {
    hide ComponentRowsPlayed, ComponentRows;
    ComponentRowsOfPrefix(rows, teams, i + 1);
    ComponentRowsPlayed(ratings, counts, rows[..i + 1], year, teams, n)
  }

  /** When the rows succeed, the state after row `i` is the state before it with
      that row played. */
  lemma ComponentRowsStep(ratings: map<string, Trio>, counts: ScoreCount, rows: seq<Match>, year: int,
                          teams: set<string>, n: Numerics, i: int)
    requires Lawful(n) && PositiveTrios(ratings) && teams <= ratings.Keys && ComponentRows(rows, teams)
    requires 0 <= i < |rows| && ComponentRowsPlayed(ratings, counts, rows, year, teams, n).Success?
    ensures var before := ComponentStateBefore(ratings, counts, rows, year, teams, n, i);
            var after := ComponentStateAfter(ratings, counts, rows, year, teams, n, i);
            && before.Success? && after.Success?
            && RowRated(before.value, after.value, rows[i], year, n)
  {
    hide ComponentPlayed, ComponentReady, AllRated, ComponentPrediction, CountMatch, ComponentScalers, BreakdownMatch,
         PlayedOn, Match.Teams, ComponentRows, PositiveTrios;
    ComponentRowsOfPrefix(rows, teams, i + 1);
    ComponentRowsOfPrefix(rows, teams, i);
    ComponentRowsPrefix(ratings, counts, rows, year, teams, n, i + 1);
    assert rows[..i + 1][..i] == rows[..i];
  }

  /** When the rows succeed, every row is played and recorded on the state the rows
      before it leave. */
  lemma ComponentRowsSteps(ratings: map<string, Trio>, counts: ScoreCount, rows: seq<Match>, year: int,
                           teams: set<string>, n: Numerics)
    requires Lawful(n) && PositiveTrios(ratings) && teams <= ratings.Keys && ComponentRows(rows, teams)
    requires ComponentRowsPlayed(ratings, counts, rows, year, teams, n).Success?
    ensures forall i :: 0 <= i < |rows| ==>
              var before := ComponentStateBefore(ratings, counts, rows, year, teams, n, i);
              var after := ComponentStateAfter(ratings, counts, rows, year, teams, n, i);
              && before.Success? && after.Success?
              && RowRated(before.value, after.value, rows[i], year, n)
              && RowRecorded(before.value, ComponentRowsPlayed(ratings, counts, rows, year, teams, n).value.records[i],
                             rows[i], year, n)
  {
    hide ComponentPlayed, ComponentReady, AllRated, ComponentPrediction, CountMatch, ComponentScalers, BreakdownMatch,
         PlayedOn, Match.Teams, ComponentRows, PositiveTrios, RowRated, RowRecorded, ComponentRowsPlayed,
         ComponentStateBefore, ComponentStateAfter;
    forall i | 0 <= i < |rows|
      ensures var before := ComponentStateBefore(ratings, counts, rows, year, teams, n, i);
              var after := ComponentStateAfter(ratings, counts, rows, year, teams, n, i);
              && before.Success? && after.Success?
              && RowRated(before.value, after.value, rows[i], year, n)
              && RowRecorded(before.value, ComponentRowsPlayed(ratings, counts, rows, year, teams, n).value.records[i],
                             rows[i], year, n)
    {
      ComponentRowsTrace(ratings, counts, rows, year, teams, n, i);
      ComponentRowsStep(ratings, counts, rows, year, teams, n, i);
    }
  }

  /** When the rows succeed, every row's breakdown decoded and its record says
      whether red won on the decoded totals. */
  lemma ComponentRowsRecords(ratings: map<string, Trio>, counts: ScoreCount, rows: seq<Match>, year: int,
                             teams: set<string>, n: Numerics)
    requires Lawful(n) && PositiveTrios(ratings) && teams <= ratings.Keys && ComponentRows(rows, teams)
    requires ComponentRowsPlayed(ratings, counts, rows, year, teams, n).Success?
    ensures var records := ComponentRowsPlayed(ratings, counts, rows, year, teams, n).value.records;
            forall i :: 0 <= i < |rows| ==>
              && BreakdownMatch(rows[i], year).Success?
              && records[i].outcome == RedWon(BreakdownMatch(rows[i], year).value.red.Total(),
                                              BreakdownMatch(rows[i], year).value.blue.Total())
  {
    hide AllRated, ComponentPrediction, PlayedOn, Match.Teams, BreakdownMatch, ComponentRowsPlayed;
    forall i | 0 <= i < |rows|
      ensures var records := ComponentRowsPlayed(ratings, counts, rows, year, teams, n).value.records;
              && BreakdownMatch(rows[i], year).Success?
              && records[i].outcome == RedWon(BreakdownMatch(rows[i], year).value.red.Total(),
                                              BreakdownMatch(rows[i], year).value.blue.Total())
    {
      ComponentRowsTrace(ratings, counts, rows, year, teams, n, i);
    }
  }

  /** When the rows succeed, a team no row names keeps its entry. */
  lemma {:induction false} ComponentRowsFrame(ratings: map<string, Trio>, counts: ScoreCount, rows: seq<Match>,
                                              year: int, teams: set<string>, n: Numerics, t: string)
    requires Lawful(n) && PositiveTrios(ratings) && teams <= ratings.Keys && ComponentRows(rows, teams)
    requires ComponentRowsPlayed(ratings, counts, rows, year, teams, n).Success?
    requires t in ratings && forall i :: 0 <= i < |rows| ==> t !in rows[i].Teams()
    ensures ComponentRowsPlayed(ratings, counts, rows, year, teams, n).value.ratings[t] == ratings[t]
    decreases |rows|
  {
    hide AllRated, ComponentPrediction, PlayedOn, Match.Teams, BreakdownMatch;
    if |rows| > 0 {
      var k := |rows| - 1;
      ComponentRowsFrame(ratings, counts, rows[..k], year, teams, n, t);
    }
  }

  /** Why the rows fail: a zero component total, or a row whose breakdown does not
      decode. */
  lemma {:induction false} ComponentRowsFailure(ratings: map<string, Trio>, counts: ScoreCount, rows: seq<Match>,
                                                year: int, teams: set<string>, n: Numerics)
    requires Lawful(n) && PositiveTrios(ratings) && teams <= ratings.Keys && ComponentRows(rows, teams)
    requires ComponentRowsPlayed(ratings, counts, rows, year, teams, n).Failure?
    ensures var e := ComponentRowsPlayed(ratings, counts, rows, year, teams, n).error;
            || e == ZeroComponentTotal
            || (e.BadBreakdown? && exists i :: 0 <= i < |rows| && BreakdownMatch(rows[i], year) == Failure(e.cause))
    decreases |rows|
  {
    hide AllRated, ComponentPrediction, PlayedOn, Match.Teams, BreakdownMatch;
    if |rows| > 0 {
      var k := |rows| - 1;
      var prev := ComponentRowsPlayed(ratings, counts, rows[..k], year, teams, n);
      var e := ComponentRowsPlayed(ratings, counts, rows, year, teams, n).error;
      if prev.Failure? {
        ComponentRowsFailure(ratings, counts, rows[..k], year, teams, n);
        if e.BadBreakdown? {
          var i :| 0 <= i < k && BreakdownMatch(rows[..k][i], year) == Failure(e.cause);
          assert rows[..k][i] == rows[i];
        }
      } else if e.BadBreakdown? {
        assert BreakdownMatch(rows[k], year) == Failure(e.cause);
      }
    }
  }

  /** Component rows in order, on tables that already hold every team they name:
      each is played by PlayComponentMatch on the state the rows before it leave,
      and the first failure ends the loop. */
  method PlayComponentRows(ratings: map<string, Trio>, counts: ScoreCount, rows: seq<Match>, year: int,
                           teams: set<string>, n: Numerics)
    returns (out: Result<ComponentState, ReplayError>)
    requires Lawful(n) && PositiveTrios(ratings) && teams <= ratings.Keys && ComponentRows(rows, teams)
    ensures out == ComponentRowsPlayed(ratings, counts, rows, year, teams, n)
    ensures out.Success? ==>
              && PositiveTrios(out.value.ratings) && out.value.ratings.Keys == ratings.Keys
              && (forall t :: t in ratings && t !in teams ==> out.value.ratings[t] == ratings[t])
              && |out.value.records| == |rows|
              && out.value.counts.count == counts.count + 2 * |rows|
    ensures out.Success? ==>
              forall i :: 0 <= i < |rows| ==>
                && BreakdownMatch(rows[i], year).Success?
                && out.value.records[i].outcome == RedWon(BreakdownMatch(rows[i], year).value.red.Total(),
                                                          BreakdownMatch(rows[i], year).value.blue.Total())
    ensures out.Success? ==>
              forall i :: 0 <= i < |rows| ==>
                var before := ComponentStateBefore(ratings, counts, rows, year, teams, n, i);
                var after := ComponentStateAfter(ratings, counts, rows, year, teams, n, i);
                && before.Success? && after.Success?
                && RowRated(before.value, after.value, rows[i], year, n)
                && RowRecorded(before.value, out.value.records[i], rows[i], year, n)
    ensures out.Failure? ==>
              || out.error == ZeroComponentTotal
              || (out.error.BadBreakdown? &&
                  exists i :: 0 <= i < |rows| && BreakdownMatch(rows[i], year) == Failure(out.error.cause))
  {
    hide ComponentPlayed, AllRated, ComponentPrediction, PlayedOn, Match.Teams, BreakdownMatch, ComponentStateBefore,
         ComponentStateAfter, RowRated, RowRecorded;
    var st := ComponentState(ratings, counts, []);
    for k := 0 to |rows|
      invariant ComponentRowsPlayed(ratings, counts, rows[..k], year, teams, n) == Success(st)
    {
      assert rows[..k + 1][..k] == rows[..k];
      var step := PlayComponentMatch(st.ratings, st.counts, rows[k], year, n);
      if step.Failure? {
        ComponentRowsFailedPrefix(ratings, counts, rows, year, teams, n, k + 1);
        ComponentRowsFailure(ratings, counts, rows, year, teams, n);
        return Failure(step.error);
      }
      st := ComponentState(step.value.ratings, step.value.counts, st.records + [step.value.rec]);
    }
    assert rows[..|rows|] == rows;
    out := Success(st);
    ComponentRowsRecords(ratings, counts, rows, year, teams, n);
    ComponentRowsSteps(ratings, counts, rows, year, teams, n);
    forall t | t in ratings && t !in teams
      ensures st.ratings[t] == ratings[t]
    {
      ComponentRowsFrame(ratings, counts, rows, year, teams, n, t);
    }
  }

  /** How a participant enters its first row of an event: each of its three sigmas
      is reset to 25/3 and each mean is the one it had before the event, or 25 for a
      team new to the replay. */
  predicate ComponentEntry(before: map<string, Trio>, ratings: map<string, Trio>, t: string) {
    && t in before
    && forall c :: && before[t].Get(c).sigma == SIGMA_RESET
                   && before[t].Get(c).mu == (if t in ratings then ratings[t].Get(c).mu else STARTING_MU)
  }

  /** One component event as a function: its participants are started, then its
      rows are played in table order until one fails. */
  function ComponentEventPlayed(ratings: map<string, Trio>, counts: ScoreCount, ms: seq<Match>, year: int,
                                event: string, n: Numerics): (out: Result<ComponentState, ReplayError>)
    requires Lawful(n) && PositiveTrios(ratings) && year >= 2005
    ensures out.Success? ==>
              && PositiveTrios(out.value.ratings)
              && out.value.ratings.Keys == ratings.Keys + EventTeams(FilterMatches(ms, year), event)
              && |out.value.records| == |EventRowsOf(ms, year, event)|
              && out.value.counts.count == counts.count + 2 * |EventRowsOf(ms, year, event)|
  {
    hide ComponentRowsPlayed;
    var teams := EventTeams(FilterMatches(ms, year), event);
    ComponentRowsPlayed(ComponentStarted(ratings, teams), counts, EventRowsOf(ms, year, event), year, teams, n)
  }

  /** What the rows of an event before row `i` leave. */
  function ComponentEventStateBefore(ratings: map<string, Trio>, counts: ScoreCount, ms: seq<Match>, year: int,
                                     event: string, n: Numerics, i: int): (before: Result<ComponentState, ReplayError>)
    requires Lawful(n) && PositiveTrios(ratings) && year >= 2005 && 0 <= i < |EventRowsOf(ms, year, event)|
    ensures before.Success? ==> ComponentReady(before.value.ratings, EventRowsOf(ms, year, event)[i])
  {
    hide ComponentRowsPlayed;
    var teams := EventTeams(FilterMatches(ms, year), event);
    ComponentStateBefore(ComponentStarted(ratings, teams), counts, EventRowsOf(ms, year, event), year, teams, n, i)
  }

  /** A team the event start covers enters with a reset sigma in every component. */
  lemma ComponentStartedEntry(ratings: map<string, Trio>, teams: set<string>, t: string)
    requires PositiveTrios(ratings) && t in teams
    ensures ComponentEntry(ComponentStarted(ratings, teams), ratings, t)
  {
  }

  /** When an event succeeds, its records follow its rows: every row's breakdown
      decoded and its record says whether red won on the decoded totals. */
  lemma ComponentEventRecords(ratings: map<string, Trio>, counts: ScoreCount, ms: seq<Match>, year: int,
                              event: string, n: Numerics)
    requires Lawful(n) && PositiveTrios(ratings) && year >= 2005
    requires ComponentEventPlayed(ratings, counts, ms, year, event, n).Success?
    ensures var records := ComponentEventPlayed(ratings, counts, ms, year, event, n).value.records;
            var rows := EventRowsOf(ms, year, event);
            forall i :: 0 <= i < |rows| ==>
              && BreakdownMatch(rows[i], year).Success?
              && records[i].outcome == RedWon(BreakdownMatch(rows[i], year).value.red.Total(),
                                              BreakdownMatch(rows[i], year).value.blue.Total())
  {
    hide ComponentPlayed, AllRated, ComponentPrediction, PlayedOn, Match.Teams, BreakdownMatch, ComponentRowsPlayed;
    var teams := EventTeams(FilterMatches(ms, year), event);
    var start := ComponentStarted(ratings, teams);
    assert ComponentEventPlayed(ratings, counts, ms, year, event, n) ==
             ComponentRowsPlayed(start, counts, EventRowsOf(ms, year, event), year, teams, n);
    ComponentRowsRecords(start, counts, EventRowsOf(ms, year, event), year, teams, n);
  }

  /** Every participant that reaches its first row of the event enters it as
      ComponentEntry says. */
  lemma ComponentEventEntersReset(ratings: map<string, Trio>, counts: ScoreCount, ms: seq<Match>, year: int,
                                  event: string, n: Numerics, i: int, t: string)
    requires Lawful(n) && PositiveTrios(ratings) && year >= 2005
    requires FirstRowOf(EventRowsOf(ms, year, event), i, t)
    requires ComponentEventStateBefore(ratings, counts, ms, year, event, n, i).Success?
    ensures ComponentEntry(ComponentEventStateBefore(ratings, counts, ms, year, event, n, i).value.ratings, ratings, t)
  {
    hide ComponentPlayed, AllRated, ComponentPrediction, CountMatch, ComponentScalers, PlayedOn, Match.Teams,
         BreakdownMatch, ComponentRowsPlayed, ComponentStarted, EventTeams, EventRowsOf, FilterMatches;
    var teams := EventTeams(FilterMatches(ms, year), event);
    var rows := EventRowsOf(ms, year, event);
    var start := ComponentStarted(ratings, teams);
    assert t in rows[i].Teams() && rows[i].Teams() <= teams;
    ComponentStartedEntry(ratings, teams, t);
    var played := ComponentRowsPlayed(start, counts, rows[..i], year, teams, n);
    assert ComponentEventStateBefore(ratings, counts, ms, year, event, n, i) == played;
    assert forall j :: 0 <= j < |rows[..i]| ==> t !in rows[..i][j].Teams();
    ComponentRowsFrame(start, counts, rows[..i], year, teams, n, t);
  }

  /** Why an event fails: a zero component total, or one of its kept rows whose
      breakdown does not decode. */
  lemma ComponentEventFailure(ratings: map<string, Trio>, counts: ScoreCount, ms: seq<Match>, year: int,
                              event: string, n: Numerics)
    requires Lawful(n) && PositiveTrios(ratings) && year >= 2005
    requires ComponentEventPlayed(ratings, counts, ms, year, event, n).Failure?
    ensures var e := ComponentEventPlayed(ratings, counts, ms, year, event, n).error;
            || e == ZeroComponentTotal
            || (e.BadBreakdown? &&
                exists m :: m in FilterMatches(ms, year) && BreakdownMatch(m, year) == Failure(e.cause))
  {
    hide ComponentPlayed, AllRated, ComponentPrediction, PlayedOn, Match.Teams, BreakdownMatch, ComponentRowsPlayed;
    var teams := EventTeams(FilterMatches(ms, year), event);
    var rows := EventRowsOf(ms, year, event);
    ComponentRowsFailure(ComponentStarted(ratings, teams), counts, rows, year, teams, n);
    var e := ComponentEventPlayed(ratings, counts, ms, year, event, n).error;
    if e.BadBreakdown? && e != ZeroComponentTotal {
      var i :| 0 <= i < |rows| && BreakdownMatch(rows[i], year) == Failure(e.cause);
      assert rows[i] in FilterMatches(ms, year);
    }
  }

  /** One component event: its participants are started, then its rows are played in
      table order until one of them fails. */
  method PlayComponentEvent(ratings: map<string, Trio>, counts: ScoreCount, ms: seq<Match>, year: int, event: string,
                            n: Numerics)
    returns (out: Result<ComponentState, ReplayError>)
    requires Lawful(n) && PositiveTrios(ratings) && year >= 2005
    ensures out == ComponentEventPlayed(ratings, counts, ms, year, event, n)
    ensures out.Success? ==>
              && PositiveTrios(out.value.ratings)
              && out.value.ratings.Keys == ratings.Keys + EventTeams(FilterMatches(ms, year), event)
              && (forall t :: t in ratings && t !in EventTeams(FilterMatches(ms, year), event) ==>
                    out.value.ratings[t] == ratings[t])
              && |out.value.records| == |EventRowsOf(ms, year, event)|
              && out.value.counts.count == counts.count + 2 * |EventRowsOf(ms, year, event)|
    ensures out.Success? ==>
              var rows := EventRowsOf(ms, year, event);
              forall i :: 0 <= i < |rows| ==>
                && BreakdownMatch(rows[i], year).Success?
                && out.value.records[i].outcome == RedWon(BreakdownMatch(rows[i], year).value.red.Total(),
                                                          BreakdownMatch(rows[i], year).value.blue.Total())
    ensures forall i, t :: FirstRowOf(EventRowsOf(ms, year, event), i, t)
                           && ComponentEventStateBefore(ratings, counts, ms, year, event, n, i).Success? ==>
              ComponentEntry(ComponentEventStateBefore(ratings, counts, ms, year, event, n, i).value.ratings, ratings, t)
    ensures out.Failure? ==>
              || out.error == ZeroComponentTotal
              || (out.error.BadBreakdown? &&
                  exists m :: m in FilterMatches(ms, year) && BreakdownMatch(m, year) == Failure(out.error.cause))
  {
    hide ComponentPlayed, AllRated, ComponentPrediction, PlayedOn, Match.Teams, BreakdownMatch, ComponentRowsPlayed;
    var teams := EventTeams(FilterMatches(ms, year), event);
    var start := InitComponentEvent(ratings, teams);
    out := PlayComponentRows(start, counts, EventRowsOf(ms, year, event), year, teams, n);
    forall i, t | FirstRowOf(EventRowsOf(ms, year, event), i, t)
                  && ComponentEventStateBefore(ratings, counts, ms, year, event, n, i).Success?
      ensures ComponentEntry(ComponentEventStateBefore(ratings, counts, ms, year, event, n, i).value.ratings, ratings, t)
    {
      ComponentEventEntersReset(ratings, counts, ms, year, event, n, i, t);
    }
    if out.Failure? {
      ComponentEventFailure(ratings, counts, ms, year, event, n);
    }
  }

  /** The listed component events played in order from `ratings` and `counts`,
      stopping at the first failure. */
  function ComponentEventsPlayed(ratings: map<string, Trio>, counts: ScoreCount, ms: seq<Match>, year: int,
                                 events: seq<string>, n: Numerics): (out: Result<ComponentState, ReplayError>)
    requires Lawful(n) && PositiveTrios(ratings) && year >= 2005
    ensures out.Success? ==>
              && PositiveTrios(out.value.ratings)
              && out.value.ratings.Keys == ratings.Keys + TeamsOfEvents(FilterMatches(ms, year), events)
              && |out.value.records| == EventSizes(FilterMatches(ms, year), events)
              && out.value.counts.count == counts.count + 2 * EventSizes(FilterMatches(ms, year), events)
    decreases |events|
  {
    hide ComponentEventPlayed;
    if |events| == 0 then Success(ComponentState(ratings, counts, []))
    else
      var prev := ComponentEventsPlayed(ratings, counts, ms, year, events[..|events| - 1], n);
      if prev.Failure? then prev
      else
        var more := ComponentEventPlayed(prev.value.ratings, prev.value.counts, ms, year, events[|events| - 1], n);
        if more.Failure? then more
        else Success(ComponentState(more.value.ratings, more.value.counts, prev.value.records + more.value.records))
  }

  /** Once the first events fail, the listed events fail with the same error. */
  lemma {:induction false} ComponentEventsFailedPrefix(ratings: map<string, Trio>, counts: ScoreCount, ms: seq<Match>,
                                                       year: int, events: seq<string>, n: Numerics, j: int)
    requires Lawful(n) && PositiveTrios(ratings) && year >= 2005
    requires 0 <= j <= |events| && ComponentEventsPlayed(ratings, counts, ms, year, events[..j], n).Failure?
    ensures ComponentEventsPlayed(ratings, counts, ms, year, events, n) ==
              ComponentEventsPlayed(ratings, counts, ms, year, events[..j], n)
    decreases |events|
  {
    hide ComponentEventPlayed;
    if j < |events| {
      var k := |events| - 1;
      assert events[..k][..j] == events[..j];
      ComponentEventsFailedPrefix(ratings, counts, ms, year, events[..k], n, j);
    } else {
      assert events[..j] == events;
    }
  }

  /** When the events succeed, a team that takes part in none of them keeps its
      entry. */
  lemma {:induction false} ComponentEventsFrame(ratings: map<string, Trio>, counts: ScoreCount, ms: seq<Match>,
                                                year: int, events: seq<string>, n: Numerics, t: string)
    requires Lawful(n) && PositiveTrios(ratings) && year >= 2005
    requires ComponentEventsPlayed(ratings, counts, ms, year, events, n).Success?
    requires t in ratings && t !in TeamsOfEvents(FilterMatches(ms, year), events)
    ensures ComponentEventsPlayed(ratings, counts, ms, year, events, n).value.ratings[t] == ratings[t]
    decreases |events|
  {
    hide ComponentPlayed, AllRated, ComponentPrediction, PlayedOn, Match.Teams, BreakdownMatch, ComponentRowsPlayed;
    if |events| > 0 {
      var p := events[..|events| - 1];
      var e := events[|events| - 1];
      var prev := ComponentEventsPlayed(ratings, counts, ms, year, p, n);
      ComponentEventsFrame(ratings, counts, ms, year, p, n, t);
      var teams := EventTeams(FilterMatches(ms, year), e);
      ComponentRowsFrame(ComponentStarted(prev.value.ratings, teams), prev.value.counts, EventRowsOf(ms, year, e),
                         year, teams, n, t);
    }
  }

  /** When the events succeed, the records follow the events' rows in replay order:
      every row's breakdown decoded and its record says whether red won on the
      decoded totals. */
  lemma {:induction false} ComponentEventsRecords(ratings: map<string, Trio>, counts: ScoreCount, ms: seq<Match>,
                                                  year: int, events: seq<string>, n: Numerics)
    requires Lawful(n) && PositiveTrios(ratings) && year >= 2005
    requires ComponentEventsPlayed(ratings, counts, ms, year, events, n).Success?
    ensures var records := ComponentEventsPlayed(ratings, counts, ms, year, events, n).value.records;
            var rows := EventRows(FilterMatches(ms, year), events);
            forall i :: 0 <= i < |records| ==>
              && BreakdownMatch(rows[i], year).Success?
              && records[i].outcome == RedWon(BreakdownMatch(rows[i], year).value.red.Total(),
                                              BreakdownMatch(rows[i], year).value.blue.Total())
    decreases |events|
  {
    hide ComponentPlayed, AllRated, ComponentPrediction, PlayedOn, Match.Teams, BreakdownMatch, ComponentRowsPlayed,
         ComponentEventPlayed, ComponentStarted;
    if |events| > 0 {
      var kept := FilterMatches(ms, year);
      var p := events[..|events| - 1];
      var e := events[|events| - 1];
      var prev := ComponentEventsPlayed(ratings, counts, ms, year, p, n);
      var more := ComponentEventPlayed(prev.value.ratings, prev.value.counts, ms, year, e, n);
      ComponentEventsRecords(ratings, counts, ms, year, p, n);
      ComponentEventRecords(prev.value.ratings, prev.value.counts, ms, year, e, n);
      var records := ComponentEventsPlayed(ratings, counts, ms, year, events, n).value.records;
      var rows := EventRows(kept, events);
      assert records == prev.value.records + more.value.records;
      assert rows == EventRows(kept, p) + EventRowsOf(ms, year, e);
      forall i | 0 <= i < |records|
        ensures BreakdownMatch(rows[i], year).Success?
        ensures records[i].outcome == RedWon(BreakdownMatch(rows[i], year).value.red.Total(),
                                             BreakdownMatch(rows[i], year).value.blue.Total())
      {
        if i >= |prev.value.records| {
          assert records[i] == more.value.records[i - |prev.value.records|];
          assert rows[i] == EventRowsOf(ms, year, e)[i - |prev.value.records|];
        } else {
          assert records[i] == prev.value.records[i];
          assert rows[i] == EventRows(kept, p)[i];
        }
      }
    }
  }

  /** Why the events fail: a zero component total, or a kept row whose breakdown
      does not decode. */
  lemma {:induction false} ComponentEventsFailure(ratings: map<string, Trio>, counts: ScoreCount, ms: seq<Match>,
                                                  year: int, events: seq<string>, n: Numerics)
    requires Lawful(n) && PositiveTrios(ratings) && year >= 2005
    requires ComponentEventsPlayed(ratings, counts, ms, year, events, n).Failure?
    ensures var e := ComponentEventsPlayed(ratings, counts, ms, year, events, n).error;
            || e == ZeroComponentTotal
            || (e.BadBreakdown? &&
                exists m :: m in FilterMatches(ms, year) && BreakdownMatch(m, year) == Failure(e.cause))
    decreases |events|
  {
    hide ComponentEventPlayed, BreakdownMatch;
    if |events| > 0 {
      var p := events[..|events| - 1];
      var prev := ComponentEventsPlayed(ratings, counts, ms, year, p, n);
      if prev.Failure? {
        ComponentEventsFailure(ratings, counts, ms, year, p, n);
      } else {
        ComponentEventFailure(prev.value.ratings, prev.value.counts, ms, year, events[|events| - 1], n);
      }
    }
  }

  /** The listed component events, in order, until one of them fails. */
  method PlayComponentEvents(ratings: map<string, Trio>, counts: ScoreCount, ms: seq<Match>, year: int,
                             events: seq<string>, n: Numerics)
    returns (out: Result<ComponentState, ReplayError>)
    requires Lawful(n) && PositiveTrios(ratings) && year >= 2005
    ensures out == ComponentEventsPlayed(ratings, counts, ms, year, events, n)
    ensures out.Success? ==>
              && PositiveTrios(out.value.ratings)
              && out.value.ratings.Keys == ratings.Keys + TeamsOfEvents(FilterMatches(ms, year), events)
              && (forall t :: t in ratings && t !in TeamsOfEvents(FilterMatches(ms, year), events) ==>
                    out.value.ratings[t] == ratings[t])
              && |out.value.records| == EventSizes(FilterMatches(ms, year), events)
              && out.value.counts.count == counts.count + 2 * EventSizes(FilterMatches(ms, year), events)
    ensures out.Success? ==>
              var rows := EventRows(FilterMatches(ms, year), events);
              forall i :: 0 <= i < |out.value.records| ==>
                && BreakdownMatch(rows[i], year).Success?
                && out.value.records[i].outcome == RedWon(BreakdownMatch(rows[i], year).value.red.Total(),
                                                          BreakdownMatch(rows[i], year).value.blue.Total())
    ensures out.Failure? ==>
              || out.error == ZeroComponentTotal
              || (out.error.BadBreakdown? &&
                  exists m :: m in FilterMatches(ms, year) && BreakdownMatch(m, year) == Failure(out.error.cause))
  {
    hide ComponentPlayed, AllRated, ComponentPrediction, PlayedOn, Match.Teams, BreakdownMatch, ComponentRowsPlayed,
         ComponentEventPlayed;
    var st := ComponentState(ratings, counts, []);
    for e := 0 to |events|
      invariant ComponentEventsPlayed(ratings, counts, ms, year, events[..e], n) == Success(st)
    {
      assert events[..e + 1][..e] == events[..e];
      var more := PlayComponentEvent(st.ratings, st.counts, ms, year, events[e], n);
      if more.Failure? {
        ComponentEventsFailedPrefix(ratings, counts, ms, year, events, n, e + 1);
        ComponentEventsFailure(ratings, counts, ms, year, events, n);
        return more;
      }
      st := ComponentState(more.value.ratings, more.value.counts, st.records + more.value.records);
    }
    assert events[..|events|] == events;
    out := Success(st);
    ComponentEventsRecords(ratings, counts, ms, year, events, n);
    forall t | t in ratings && t !in TeamsOfEvents(FilterMatches(ms, year), events)
      ensures st.ratings[t] == ratings[t]
    {
      ComponentEventsFrame(ratings, counts, ms, year, events, n, t);
    }
  }

  /** One component season as a function: its events in order of first appearance,
      with the totals starting from zero. */
  function ComponentSeasonPlayed(ratings: map<string, Trio>, ms: seq<Match>, year: int, n: Numerics)
    : (out: Result<ComponentState, ReplayError>)
    requires Lawful(n) && PositiveTrios(ratings) && year >= 2005
    ensures out.Success? ==>
              && PositiveTrios(out.value.ratings)
              && out.value.ratings.Keys == ratings.Keys + SeasonTeams(FilterMatches(ms, year))
              && |out.value.records| == |FilterMatches(ms, year)|
              && out.value.counts.count == 2 * |FilterMatches(ms, year)|
  {
    hide ComponentEventsPlayed;
    GetEventsPartitionsRows(FilterMatches(ms, year));
    SeasonTeamsAreEventTeams(FilterMatches(ms, year));
    ComponentEventsPlayed(ratings, EMPTY_COUNT, ms, year, GetEvents(FilterMatches(ms, year)), n)
  }

  /** A component season is its events in order of first appearance, from zero totals.
      An unfolding of ComponentSeasonPlayed for the proofs below, not a property of it. */
  lemma ComponentSeasonIsEvents(ratings: map<string, Trio>, ms: seq<Match>, year: int, n: Numerics)
    requires Lawful(n) && PositiveTrios(ratings) && year >= 2005
    ensures ComponentSeasonPlayed(ratings, ms, year, n) ==
              ComponentEventsPlayed(ratings, EMPTY_COUNT, ms, year, GetEvents(FilterMatches(ms, year)), n)
  {
  }

  /** One component season, with the totals starting from zero: on success every kept
      row decoded and was played exactly once, the tables gain the season's teams and
      nothing else, and every sigma stays positive. A decoding failure names a kept
      row that does not decode. */
  method PlayComponentSeason(ratings: map<string, Trio>, ms: seq<Match>, year: int, n: Numerics)
    returns (out: Result<ComponentState, ReplayError>)
    requires Lawful(n) && PositiveTrios(ratings) && year >= 2005
    ensures out == ComponentSeasonPlayed(ratings, ms, year, n)
    ensures out.Success? ==>
              && PositiveTrios(out.value.ratings)
              && out.value.ratings.Keys == ratings.Keys + SeasonTeams(FilterMatches(ms, year))
              && (forall t :: t in ratings && t !in SeasonTeams(FilterMatches(ms, year)) ==>
                    out.value.ratings[t] == ratings[t])
              && |out.value.records| == |FilterMatches(ms, year)|
              && out.value.counts.count == 2 * |FilterMatches(ms, year)|
              && (forall m :: m in FilterMatches(ms, year) ==> BreakdownMatch(m, year).Success?)
    ensures out.Success? ==>
              var rows := EventRows(FilterMatches(ms, year), GetEvents(FilterMatches(ms, year)));
              && |rows| == |out.value.records|
              && forall i :: 0 <= i < |rows| ==>
                   && BreakdownMatch(rows[i], year).Success?
                   && out.value.records[i].outcome == RedWon(BreakdownMatch(rows[i], year).value.red.Total(),
                                                             BreakdownMatch(rows[i], year).value.blue.Total())
    ensures out.Failure? ==>
              || out.error == ZeroComponentTotal
              || (out.error.BadBreakdown? &&
                  exists m :: m in FilterMatches(ms, year) && BreakdownMatch(m, year) == Failure(out.error.cause))
  {
    hide ComponentPlayed, AllRated, ComponentPrediction, PlayedOn, Match.Teams, BreakdownMatch, ComponentRowsPlayed,
         ComponentEventPlayed, ComponentEventsPlayed, ComponentSeasonPlayed, FilterMatches, GetEvents, EventRows,
         SeasonTeams, TeamsOfEvents, EventSizes;
    var kept := FilterMatches(ms, year);
    var events := GetEvents(kept);
    ComponentSeasonIsEvents(ratings, ms, year, n);
    out := PlayComponentEvents(ratings, EMPTY_COUNT, ms, year, events, n);
    SeasonTeamsAreEventTeams(kept);
    GetEventsPartitionsRows(kept);
    if out.Success? {
      var rows := EventRows(kept, events);
      EventRowsMembers(kept, events);
      forall m | m in kept
        ensures BreakdownMatch(m, year).Success?
      {
        var j :| 0 <= j < |kept| && kept[j] == m;
        assert m.eventKey in events;
        var i :| 0 <= i < |rows| && rows[i] == m;
        var rec := out.value.records[i];
      }
    }
  }

  // ---------------------------------------------------------------------------
  // The whole history
  // ---------------------------------------------------------------------------

  const FIRST_LEGACY_YEAR: int := 2002
  const FIRST_COMPONENT_YEAR: int := 2016
  const LAST_YEAR: int := 2024

  /** The rows of a season file that the replay plays. */
  function Kept(files: map<int, seq<Match>>, year: int): seq<Match>
    requires year in files
  {
    FilterMatches(files[year], year)
  }

  /** The teams of every season file in [lo, hi). */
  function TeamsBetween(files: map<int, seq<Match>>, lo: int, hi: int): set<string>
    decreases hi - lo
  {
    if hi <= lo then {}
    else TeamsBetween(files, lo, hi - 1) + (if hi - 1 in files then SeasonTeams(Kept(files, hi - 1)) else {})
  }

  lemma {:induction false} TeamsBetweenMembers(files: map<int, seq<Match>>, lo: int, hi: int)
    ensures forall t :: t in TeamsBetween(files, lo, hi) <==>
              exists y :: lo <= y < hi && y in files && t in SeasonTeams(Kept(files, y))
    decreases hi - lo
  {
    if hi > lo {
      TeamsBetweenMembers(files, lo, hi - 1);
    }
  }

  lemma TeamsBetweenStep(files: map<int, seq<Match>>, lo: int, hi: int)
    requires lo <= hi
    ensures TeamsBetween(files, lo, hi + 1) ==
              TeamsBetween(files, lo, hi) + (if hi in files then SeasonTeams(Kept(files, hi)) else {})
  {
  }

  /** One replayed season: its year and its records in replay order. */
  datatype Season = Season(year: int, records: seq<Record>)

  datatype History = History(ratings: map<string, Trio>, seasons: seq<Season>)

  /** The seasons replayed for the years before `hi`: one per season file in
      [2002, hi), in year order, each with one record per kept row. */
  predicate SeasonsUpTo(seasons: seq<Season>, files: map<int, seq<Match>>, hi: int) {
    && (forall k :: 0 <= k < |seasons| ==>
          && seasons[k].year in files && FIRST_LEGACY_YEAR <= seasons[k].year < hi
          && |seasons[k].records| == |Kept(files, seasons[k].year)|)
    && (forall k, l :: 0 <= k < l < |seasons| ==> seasons[k].year < seasons[l].year)
    && (forall y :: y in files && FIRST_LEGACY_YEAR <= y < hi ==> exists k :: 0 <= k < |seasons| && seasons[k].year == y)
  }

  /** A year without a file adds no season. */
  lemma SeasonsUpToSkip(seasons: seq<Season>, files: map<int, seq<Match>>, y: int)
    requires SeasonsUpTo(seasons, files, y) && y !in files
    ensures SeasonsUpTo(seasons, files, y + 1)
  {
  }

  /** A year with a file adds its season last. */
  lemma SeasonsUpToAppend(seasons: seq<Season>, files: map<int, seq<Match>>, y: int, records: seq<Record>)
    requires FIRST_LEGACY_YEAR <= y && SeasonsUpTo(seasons, files, y)
    requires y in files && |records| == |Kept(files, y)|
    ensures SeasonsUpTo(seasons + [Season(y, records)], files, y + 1)
  {
    var more := seasons + [Season(y, records)];
    forall k | 0 <= k < |more|
      ensures more[k].year in files && FIRST_LEGACY_YEAR <= more[k].year < y + 1
      ensures |more[k].records| == |Kept(files, more[k].year)|
    {
      if k < |seasons| {
        assert more[k] == seasons[k];
      }
    }
    forall k, l | 0 <= k < l < |more|
      ensures more[k].year < more[l].year
    {
      assert more[k] == seasons[k];
      if l < |seasons| {
        assert more[l] == seasons[l];
      }
    }
    forall z | z in files && FIRST_LEGACY_YEAR <= z < y + 1
      ensures exists k :: 0 <= k < |more| && more[k].year == z
    {
      if z == y {
        assert more[|seasons|].year == y;
      } else {
        var k :| 0 <= k < |seasons| && seasons[k].year == z;
        assert more[k].year == z;
      }
    }
  }

  /** The legacy part of the replay: the table and the seasons so far. */
  datatype LegacyHistory = LegacyHistory(ratings: map<string, Rating>, seasons: seq<Season>)

  /** What the legacy replay has established before year `hi`. */
  predicate LegacyUpTo(legacy: LegacyHistory, files: map<int, seq<Match>>, hi: int) {
    && PositiveTable(legacy.ratings)
    && legacy.ratings.Keys == TeamsBetween(files, FIRST_LEGACY_YEAR, hi)
    && SeasonsUpTo(legacy.seasons, files, hi)
    && (forall z :: z in files && FIRST_LEGACY_YEAR <= z < hi ==> Kept(files, z) != [])
  }

  /** One year of the legacy replay as a function: a year without a file changes
      nothing, a file is played as a season, and a season without a kept row stops
      the replay. */
  function LegacyYearPlayed(legacy: LegacyHistory, files: map<int, seq<Match>>, y: int, n: Numerics)
    : (out: Result<LegacyHistory, ReplayError>)
    requires Lawful(n) && PositiveTable(legacy.ratings)
    ensures out.Success? ==> PositiveTable(out.value.ratings)
  {
    hide LegacySeasonPlayed;
    if y !in files then Success(legacy)
    else
      var played := LegacySeasonPlayed(legacy.ratings, files[y], y, n);
      if |played.1| == 0 then Failure(EmptySeason(y))
      else Success(LegacyHistory(played.0, legacy.seasons + [Season(y, played.1)]))
  }

  /** A legacy year keeps what the replay has established, one year further, or
      stops on that year's empty season. */
  lemma LegacyYearKeepsUpTo(legacy: LegacyHistory, files: map<int, seq<Match>>, y: int, n: Numerics)
    requires Lawful(n) && FIRST_LEGACY_YEAR <= y && LegacyUpTo(legacy, files, y)
    ensures var out := LegacyYearPlayed(legacy, files, y, n);
            && (out.Success? ==> LegacyUpTo(out.value, files, y + 1))
            && (out.Failure? ==> out.error == EmptySeason(y) && y in files && Kept(files, y) == [])
  {
    hide LegacySeasonPlayed;
    TeamsBetweenStep(files, FIRST_LEGACY_YEAR, y);
    if y !in files {
      SeasonsUpToSkip(legacy.seasons, files, y);
    } else {
      var played := LegacySeasonPlayed(legacy.ratings, files[y], y, n);
      if |played.1| > 0 {
        SeasonsUpToAppend(legacy.seasons, files, y, played.1);
      }
    }
  }

  /** The legacy years [2002, hi) played in order from an empty table, stopping at
      the first failure. */
  function LegacyYearsPlayed(files: map<int, seq<Match>>, hi: int, n: Numerics)
    : (out: Result<LegacyHistory, ReplayError>)
    requires Lawful(n) && FIRST_LEGACY_YEAR <= hi
    ensures out.Success? ==> PositiveTable(out.value.ratings)
    decreases hi
  {
    hide LegacyYearPlayed;
    if hi == FIRST_LEGACY_YEAR then Success(LegacyHistory(map[], []))
    else
      var prev := LegacyYearsPlayed(files, hi - 1, n);
      if prev.Failure? then prev
      else LegacyYearPlayed(prev.value, files, hi - 1, n)
  }

  /** The legacy years either establish everything about [2002, hi), or stop at the
      first season file in that range without a kept row. */
  lemma {:induction false} LegacyYearsUpTo(files: map<int, seq<Match>>, hi: int, n: Numerics)
    requires Lawful(n) && FIRST_LEGACY_YEAR <= hi
    ensures var out := LegacyYearsPlayed(files, hi, n);
            && (out.Success? ==> LegacyUpTo(out.value, files, hi))
            && (out.Failure? ==>
                  && out.error.EmptySeason?
                  && var y := out.error.year;
                     && y in files && FIRST_LEGACY_YEAR <= y < hi && Kept(files, y) == []
                     && (forall z :: z in files && FIRST_LEGACY_YEAR <= z < y ==> Kept(files, z) != []))
    decreases hi
  {
    hide LegacyYearPlayed;
    if hi > FIRST_LEGACY_YEAR {
      LegacyYearsUpTo(files, hi - 1, n);
      var prev := LegacyYearsPlayed(files, hi - 1, n);
      if prev.Success? {
        LegacyYearKeepsUpTo(prev.value, files, hi - 1, n);
      }
    }
  }

  /** Once the years before `lo` fail, every later end year fails the same way. */
  lemma {:induction false} LegacyYearsFailed(files: map<int, seq<Match>>, lo: int, hi: int, n: Numerics)
    requires Lawful(n) && FIRST_LEGACY_YEAR <= lo <= hi && LegacyYearsPlayed(files, lo, n).Failure?
    ensures LegacyYearsPlayed(files, hi, n) == LegacyYearsPlayed(files, lo, n)
    decreases hi - lo
  {
    hide LegacyYearPlayed;
    if lo < hi {
      LegacyYearsFailed(files, lo, hi - 1, n);
    }
  }

  /** One year of the legacy replay. */
  method ReplayLegacyYear(legacy: LegacyHistory, files: map<int, seq<Match>>, y: int, n: Numerics)
    returns (out: Result<LegacyHistory, ReplayError>)
    requires Lawful(n) && FIRST_LEGACY_YEAR <= y && LegacyUpTo(legacy, files, y)
    ensures out == LegacyYearPlayed(legacy, files, y, n)
    ensures out.Success? ==> LegacyUpTo(out.value, files, y + 1)
    ensures out.Failure? ==> out.error == EmptySeason(y) && y in files && Kept(files, y) == []
  {
    hide LegacySeasonPlayed;
    if y !in files {
      out := Success(legacy);
    } else {
      var ratings, records := PlayLegacySeason(legacy.ratings, files[y], y, n);
      if |records| == 0 {
        out := Failure(EmptySeason(y));
      } else {
        out := Success(LegacyHistory(ratings, legacy.seasons + [Season(y, records)]));
      }
    }
    LegacyYearKeepsUpTo(legacy, files, y, n);
  }

  /** The legacy seasons 2002-2015, from an empty table. The replay stops at the first
      season file without a kept row. */
  method ReplayLegacy(files: map<int, seq<Match>>, n: Numerics) returns (out: Result<LegacyHistory, ReplayError>)
    requires Lawful(n)
    ensures out == LegacyYearsPlayed(files, FIRST_COMPONENT_YEAR, n)
    ensures out.Success? ==>
              && SeasonsUpTo(out.value.seasons, files, FIRST_COMPONENT_YEAR)
              && out.value.ratings.Keys == TeamsBetween(files, FIRST_LEGACY_YEAR, FIRST_COMPONENT_YEAR)
              && PositiveTable(out.value.ratings)
              && (forall y :: y in files && FIRST_LEGACY_YEAR <= y < FIRST_COMPONENT_YEAR ==> Kept(files, y) != [])
    ensures out.Failure? ==>
              && out.error.EmptySeason?
              && var y := out.error.year;
                 && y in files && FIRST_LEGACY_YEAR <= y < FIRST_COMPONENT_YEAR && Kept(files, y) == []
                 && (forall z :: z in files && FIRST_LEGACY_YEAR <= z < y ==> Kept(files, z) != [])
  {
    hide LegacyYearPlayed;
    var legacy := LegacyHistory(map[], []);
    for y := FIRST_LEGACY_YEAR to FIRST_COMPONENT_YEAR
      invariant LegacyYearsPlayed(files, y, n) == Success(legacy)
      invariant LegacyUpTo(legacy, files, y)
    {
      var next := ReplayLegacyYear(legacy, files, y, n);
      if next.Failure? {
        LegacyYearsFailed(files, y + 1, FIRST_COMPONENT_YEAR, n);
        LegacyYearsUpTo(files, FIRST_COMPONENT_YEAR, n);
        return next;
      }
      legacy := next.value;
    }
    out := Success(legacy);
    LegacyYearsUpTo(files, FIRST_COMPONENT_YEAR, n);
  }

  /** What the replay has established before year `hi`. */
  predicate HistoryUpTo(h: History, files: map<int, seq<Match>>, hi: int) {
    && PositiveTrios(h.ratings)
    && h.ratings.Keys == TeamsBetween(files, FIRST_LEGACY_YEAR, hi)
    && SeasonsUpTo(h.seasons, files, hi)
    && (forall z :: z in files && FIRST_LEGACY_YEAR <= z < hi ==> Kept(files, z) != [])
  }

  lemma HistoryUpToPositive(h: History, files: map<int, seq<Match>>, hi: int)
    requires HistoryUpTo(h, files, hi)
    ensures PositiveTrios(h.ratings)
  {
  }

  /** One year of the component replay as a function: a year without a file changes
      nothing; a file is played as a component season, whose failure stops the
      replay; then the script's end-of-season statistics fail on a season without
      a kept row (they divide by the number of records) and on final totals of zero
      (the scalers of its summary). */
  function ComponentYearPlayed(h: History, files: map<int, seq<Match>>, y: int, n: Numerics)
    : (out: Result<History, ReplayError>)
    requires Lawful(n) && PositiveTrios(h.ratings) && FIRST_COMPONENT_YEAR <= y
    ensures out.Success? ==> PositiveTrios(out.value.ratings)
  {
    hide ComponentSeasonPlayed;
    if y !in files then Success(h)
    else
      var played := ComponentSeasonPlayed(h.ratings, files[y], y, n);
      if played.Failure? then Failure(played.error)
      else if |played.value.records| == 0 then Failure(EmptySeason(y))
      else if ComponentScalers(played.value.counts).None? then Failure(ZeroComponentTotal)
      else Success(History(played.value.ratings, h.seasons + [Season(y, played.value.records)]))
  }

  /** Why a component season fails: a zero component total, or a kept row whose
      breakdown does not decode. */
  lemma ComponentSeasonFailure(ratings: map<string, Trio>, ms: seq<Match>, year: int, n: Numerics)
    requires Lawful(n) && PositiveTrios(ratings) && year >= 2005
    requires ComponentSeasonPlayed(ratings, ms, year, n).Failure?
    ensures var e := ComponentSeasonPlayed(ratings, ms, year, n).error;
            || e == ZeroComponentTotal
            || (e.BadBreakdown? &&
                exists m :: m in FilterMatches(ms, year) && BreakdownMatch(m, year) == Failure(e.cause))
  {
    hide ComponentEventsPlayed, BreakdownMatch;
    ComponentEventsFailure(ratings, EMPTY_COUNT, ms, year, GetEvents(FilterMatches(ms, year)), n);
  }

  /** Some kept row of a season file in [lo, hi) has a breakdown that fails to
      decode with `cause`. */
  ghost predicate BadRowIn(files: map<int, seq<Match>>, lo: int, hi: int, cause: BreakdownError) {
    exists y, m :: y in files && lo <= y < hi && m in Kept(files, y) && BreakdownMatch(m, y) == Failure(cause)
  }

  lemma BadRowInWiden(files: map<int, seq<Match>>, lo: int, hi: int, lo2: int, hi2: int, cause: BreakdownError)
    requires BadRowIn(files, lo, hi, cause) && lo2 <= lo && hi <= hi2
    ensures BadRowIn(files, lo2, hi2, cause)
  {
    var y, m :| y in files && lo <= y < hi && m in Kept(files, y) && BreakdownMatch(m, y) == Failure(cause);
    assert y in files && lo2 <= y < hi2 && m in Kept(files, y) && BreakdownMatch(m, y) == Failure(cause);
  }

  /** A component year keeps what the replay has established, one year further, or
      fails for a reason of that year's season file. */
  lemma ComponentYearKeepsUpTo(h: History, files: map<int, seq<Match>>, y: int, n: Numerics)
    requires Lawful(n) && FIRST_COMPONENT_YEAR <= y && HistoryUpTo(h, files, y)
    ensures var out := ComponentYearPlayed(h, files, y, n);
            && (out.Success? ==> HistoryUpTo(out.value, files, y + 1))
            && (out.Failure? ==> y in files)
            && (out.Failure? && out.error.EmptySeason? ==> out.error.year == y && Kept(files, y) == [])
            && (out.Failure? && out.error.BadBreakdown? ==> BadRowIn(files, y, y + 1, out.error.cause))
  {
    hide ComponentSeasonPlayed, BreakdownMatch;
    TeamsBetweenStep(files, FIRST_LEGACY_YEAR, y);
    if y !in files {
      SeasonsUpToSkip(h.seasons, files, y);
    } else {
      var played := ComponentSeasonPlayed(h.ratings, files[y], y, n);
      if played.Failure? {
        ComponentSeasonFailure(h.ratings, files[y], y, n);
        if played.error.BadBreakdown? {
          var m :| m in FilterMatches(files[y], y) && BreakdownMatch(m, y) == Failure(played.error.cause);
          assert m in Kept(files, y);
        }
      } else if |played.value.records| > 0 {
        SeasonsUpToAppend(h.seasons, files, y, played.value.records);
      }
    }
  }

  /** The component years [2016, hi) played in order from `start`, stopping at the
      first failure. */
  function ComponentYearsPlayed(start: History, files: map<int, seq<Match>>, hi: int, n: Numerics)
    : (out: Result<History, ReplayError>)
    requires Lawful(n) && PositiveTrios(start.ratings) && FIRST_COMPONENT_YEAR <= hi
    ensures out.Success? ==> PositiveTrios(out.value.ratings)
    decreases hi
  {
    hide ComponentYearPlayed;
    if hi == FIRST_COMPONENT_YEAR then Success(start)
    else
      var prev := ComponentYearsPlayed(start, files, hi - 1, n);
      if prev.Failure? then prev
      else ComponentYearPlayed(prev.value, files, hi - 1, n)
  }

  /** When the component years succeed, they establish everything about the years
      before `hi`. */
  lemma {:induction false} ComponentYearsKeep(start: History, files: map<int, seq<Match>>, hi: int, n: Numerics)
    requires Lawful(n) && FIRST_COMPONENT_YEAR <= hi && HistoryUpTo(start, files, FIRST_COMPONENT_YEAR)
    ensures var out := ComponentYearsPlayed(start, files, hi, n);
            out.Success? ==> HistoryUpTo(out.value, files, hi)
    decreases hi
  {
    hide ComponentYearPlayed, BreakdownMatch, ComponentSeasonPlayed, FilterMatches, SeasonTeams, HistoryUpTo, Kept,
         BadRowIn;
    HistoryUpToPositive(start, files, FIRST_COMPONENT_YEAR);
    if hi > FIRST_COMPONENT_YEAR {
      ComponentYearsKeep(start, files, hi - 1, n);
      var prev := ComponentYearsPlayed(start, files, hi - 1, n);
      if prev.Success? {
        ComponentYearKeepsUpTo(prev.value, files, hi - 1, n);
      }
    }
  }

  /** When the component years fail, they fail for a reason of one season file in
      [2016, hi). */
  lemma {:induction false} ComponentYearsStop(start: History, files: map<int, seq<Match>>, hi: int, n: Numerics)
    requires Lawful(n) && FIRST_COMPONENT_YEAR <= hi && HistoryUpTo(start, files, FIRST_COMPONENT_YEAR)
    ensures var out := ComponentYearsPlayed(start, files, hi, n);
            && (out.Failure? && out.error.EmptySeason? ==>
                  var y := out.error.year;
                  y in files && FIRST_COMPONENT_YEAR <= y < hi && Kept(files, y) == [])
            && (out.Failure? && out.error.BadBreakdown? ==>
                  BadRowIn(files, FIRST_COMPONENT_YEAR, hi, out.error.cause))
    decreases hi
  {
    hide ComponentYearPlayed, BreakdownMatch, ComponentSeasonPlayed, FilterMatches, SeasonTeams, HistoryUpTo, Kept,
         BadRowIn;
    HistoryUpToPositive(start, files, FIRST_COMPONENT_YEAR);
    if hi > FIRST_COMPONENT_YEAR {
      ComponentYearsStop(start, files, hi - 1, n);
      var prev := ComponentYearsPlayed(start, files, hi - 1, n);
      var out := ComponentYearsPlayed(start, files, hi, n);
      if prev.Success? {
        ComponentYearsKeep(start, files, hi - 1, n);
        ComponentYearKeepsUpTo(prev.value, files, hi - 1, n);
        if out.Failure? && out.error.BadBreakdown? {
          BadRowInWiden(files, hi - 1, hi, FIRST_COMPONENT_YEAR, hi, out.error.cause);
        }
      } else if out.error.BadBreakdown? {
        BadRowInWiden(files, FIRST_COMPONENT_YEAR, hi - 1, FIRST_COMPONENT_YEAR, hi, out.error.cause);
      }
    }
  }

  /** The component years either establish everything about the years before `hi`,
      or stop for a reason of one season file in [2016, hi). */
  lemma ComponentYearsUpTo(start: History, files: map<int, seq<Match>>, hi: int, n: Numerics)
    requires Lawful(n) && FIRST_COMPONENT_YEAR <= hi && HistoryUpTo(start, files, FIRST_COMPONENT_YEAR)
    ensures var out := ComponentYearsPlayed(start, files, hi, n);
            && (out.Success? ==> HistoryUpTo(out.value, files, hi))
            && (out.Failure? && out.error.EmptySeason? ==>
                  var y := out.error.year;
                  y in files && FIRST_COMPONENT_YEAR <= y < hi && Kept(files, y) == [])
            && (out.Failure? && out.error.BadBreakdown? ==>
                  BadRowIn(files, FIRST_COMPONENT_YEAR, hi, out.error.cause))
  {
    hide ComponentYearPlayed, BreakdownMatch, ComponentSeasonPlayed, HistoryUpTo, Kept, BadRowIn;
    ComponentYearsKeep(start, files, hi, n);
    ComponentYearsStop(start, files, hi, n);
  }

  /** Once the years before `lo` fail, every later end year fails the same way. */
  lemma {:induction false} ComponentYearsFailed(start: History, files: map<int, seq<Match>>, lo: int, hi: int,
                                                n: Numerics)
    requires Lawful(n) && PositiveTrios(start.ratings) && FIRST_COMPONENT_YEAR <= lo <= hi
    requires ComponentYearsPlayed(start, files, lo, n).Failure?
    ensures ComponentYearsPlayed(start, files, hi, n) == ComponentYearsPlayed(start, files, lo, n)
    decreases hi - lo
  {
    hide ComponentYearPlayed;
    if lo < hi {
      ComponentYearsFailed(start, files, lo, hi - 1, n);
    }
  }

  /** One year of the component replay. */
  method ReplayComponentYear(h: History, files: map<int, seq<Match>>, y: int, n: Numerics)
    returns (out: Result<History, ReplayError>)
    requires Lawful(n) && FIRST_COMPONENT_YEAR <= y && HistoryUpTo(h, files, y)
    ensures out == ComponentYearPlayed(h, files, y, n)
    ensures out.Success? ==> HistoryUpTo(out.value, files, y + 1)
    ensures out.Failure? && out.error.EmptySeason? ==> out.error.year == y && y in files && Kept(files, y) == []
    ensures out.Failure? && out.error.BadBreakdown? ==> y in files && BadRowIn(files, y, y + 1, out.error.cause)
  {
    hide ComponentSeasonPlayed, BreakdownMatch;
    if y !in files {
      out := Success(h);
    } else {
      var played := PlayComponentSeason(h.ratings, files[y], y, n);
      if played.Failure? {
        out := Failure(played.error);
      } else if |played.value.records| == 0 {
        out := Failure(EmptySeason(y));
      } else if ComponentScalers(played.value.counts).None? {
        out := Failure(ZeroComponentTotal);
      } else {
        out := Success(History(played.value.ratings, h.seasons + [Season(y, played.value.records)]));
      }
    }
    ComponentYearKeepsUpTo(h, files, y, n);
  }

  /** The component seasons 2016-2024, continuing from the promoted tables. */
  method ReplayComponents(ratings: map<string, Trio>, seasons: seq<Season>, files: map<int, seq<Match>>, n: Numerics)
    returns (out: Result<History, ReplayError>)
    requires Lawful(n) && PositiveTrios(ratings)
    requires SeasonsUpTo(seasons, files, FIRST_COMPONENT_YEAR)
    requires ratings.Keys == TeamsBetween(files, FIRST_LEGACY_YEAR, FIRST_COMPONENT_YEAR)
    requires forall y :: y in files && FIRST_LEGACY_YEAR <= y < FIRST_COMPONENT_YEAR ==> Kept(files, y) != []
    ensures out == ComponentYearsPlayed(History(ratings, seasons), files, LAST_YEAR + 1, n)
    ensures out.Success? ==>
              && SeasonsUpTo(out.value.seasons, files, LAST_YEAR + 1)
              && out.value.ratings.Keys == TeamsBetween(files, FIRST_LEGACY_YEAR, LAST_YEAR + 1)
              && PositiveTrios(out.value.ratings)
              && (forall y :: y in files && FIRST_LEGACY_YEAR <= y <= LAST_YEAR ==> Kept(files, y) != [])
    ensures out.Failure? && out.error.EmptySeason? ==>
              var y := out.error.year;
              y in files && FIRST_COMPONENT_YEAR <= y <= LAST_YEAR && Kept(files, y) == []
    ensures out.Failure? && out.error.BadBreakdown? ==>
              BadRowIn(files, FIRST_COMPONENT_YEAR, LAST_YEAR + 1, out.error.cause)
  {
    hide ComponentYearPlayed, BreakdownMatch, ComponentSeasonPlayed, FilterMatches, SeasonTeams;
    var start := History(ratings, seasons);
    out := Success(start);
    for y := FIRST_COMPONENT_YEAR to LAST_YEAR + 1
      invariant out == ComponentYearsPlayed(start, files, y, n) && out.Success?
      invariant HistoryUpTo(out.value, files, y)
    {
      var next := ReplayComponentYear(out.value, files, y, n);
      if next.Failure? {
        ComponentYearsFailed(start, files, y + 1, LAST_YEAR + 1, n);
        out := next;
        break;
      }
      out := next;
    }
    ComponentYearsUpTo(start, files, LAST_YEAR + 1, n);
  }

  /** The whole replay as a function: the legacy years, the promotion of each
      team's rating to its three component ratings, then the component years. */
  function HistoryPlayed(files: map<int, seq<Match>>, n: Numerics): (out: Result<History, ReplayError>)
    requires Lawful(n)
    ensures out.Success? ==> PositiveTrios(out.value.ratings)
  {
    hide LegacyYearsPlayed, ComponentYearsPlayed;
    var legacy := LegacyYearsPlayed(files, FIRST_COMPONENT_YEAR, n);
    if legacy.Failure? then Failure(legacy.error)
    else
      PromoteCopiesEveryComponent(legacy.value.ratings, Auto);
      PromoteCopiesEveryComponent(legacy.value.ratings, Teleop);
      PromoteCopiesEveryComponent(legacy.value.ratings, Endgame);
      PositiveProjections(Promote(legacy.value.ratings), Auto);
      ComponentYearsPlayed(History(Promote(legacy.value.ratings), legacy.value.seasons), files, LAST_YEAR + 1, n)
  }

  /** The replay of model_test.py over the season files it finds: the legacy seasons
      2002-2015 on one rating per team, the promotion of each team's rating to its
      three component ratings, then the component seasons 2016-2024. Years without a
      file are skipped. The replay stops at the first season without a kept row, at
      the first row whose breakdown does not decode, and at the first zero component
      total. On success every season file has its season of records, one per kept
      row, the tables hold exactly the teams those rows name, and every sigma is
      positive. */
  method ReplayHistory(files: map<int, seq<Match>>, n: Numerics) returns (out: Result<History, ReplayError>)
    requires Lawful(n)
    ensures out == HistoryPlayed(files, n)
    ensures out.Success? ==>
              && SeasonsUpTo(out.value.seasons, files, LAST_YEAR + 1)
              && out.value.ratings.Keys == TeamsBetween(files, FIRST_LEGACY_YEAR, LAST_YEAR + 1)
              && PositiveTrios(out.value.ratings)
    ensures out.Success? ==> forall y :: y in files && FIRST_LEGACY_YEAR <= y <= LAST_YEAR ==> Kept(files, y) != []
    ensures out.Failure? && out.error.EmptySeason? ==>
              var y := out.error.year;
              y in files && FIRST_LEGACY_YEAR <= y <= LAST_YEAR && Kept(files, y) == []
    ensures out.Failure? && out.error.BadBreakdown? ==>
              BadRowIn(files, FIRST_COMPONENT_YEAR, LAST_YEAR + 1, out.error.cause)
    ensures forall y :: y in files && FIRST_LEGACY_YEAR <= y < FIRST_COMPONENT_YEAR && Kept(files, y) == []
                        && (forall z :: z in files && FIRST_LEGACY_YEAR <= z < y ==> Kept(files, z) != []) ==>
              out == Failure(EmptySeason(y))
  {
    hide LegacyYearsPlayed, ComponentYearsPlayed, BreakdownMatch;
    var legacy := ReplayLegacy(files, n);
    if legacy.Failure? {
      return Failure(legacy.error);
    }
    var ratings := Promote(legacy.value.ratings);
    PromoteCopiesEveryComponent(legacy.value.ratings, Auto);
    PromoteCopiesEveryComponent(legacy.value.ratings, Teleop);
    PromoteCopiesEveryComponent(legacy.value.ratings, Endgame);
    PositiveProjections(ratings, Auto);
    out := ReplayComponents(ratings, legacy.value.seasons, files, n);
  }
}
