/** Match rows and the pure helpers of the replay script that select and group them:
    `filter_matches`, `get_events` and `get_event_teams` (model_test.py). */
module Matches {
  import opened Wrappers
  import opened Seqs

  /** A decoded score breakdown: field name to points. */
  type Breakdown = map<string, int>

  /** One row of a season's match table. A missing (NaN) team slot is `None`; the
      breakdowns are only read in the component seasons. */
  datatype Match = Match(
    eventKey: string,
    red1: Option<string>, red2: Option<string>, red3: Option<string>,
    blue1: Option<string>, blue2: Option<string>, blue3: Option<string>,
    redScore: int, blueScore: int,
    redBreakdown: Breakdown, blueBreakdown: Breakdown)
  {
    function Slots(): seq<Option<string>> {
      [red1, red2, red3, blue1, blue2, blue3]
    }

    /** The slots that must be filled: four before 2005, when alliances had two
        teams, and all six from 2005. */
    function RequiredSlots(year: int): seq<Option<string>> {
      if year < 2005 then [red1, red2, blue1, blue2] else Slots()
    }

    /** The team keys appearing in the match. */
    function Teams(): set<string> {
      set j | 0 <= j < 6 && Slots()[j].Some? :: Slots()[j].value
    }
  }

  /** Placeholder team keys frc9980 .. frc9999, whose matches are discarded. */
  const TEAM_BLACKLIST: seq<string> := [
    "frc9980", "frc9981", "frc9982", "frc9983", "frc9984",
    "frc9985", "frc9986", "frc9987", "frc9988", "frc9989",
    "frc9990", "frc9991", "frc9992", "frc9993", "frc9994",
    "frc9995", "frc9996", "frc9997", "frc9998", "frc9999"]

  /** `isin(TEAM_BLACKLIST)`: a missing slot is never blacklisted. */
  predicate Blacklisted(slot: Option<string>) {
    slot.Some? && slot.value in TEAM_BLACKLIST
  }

  /** The three masks of `filter_matches`. */
  predicate Keep(m: Match, year: int) {
    && (forall j :: 0 <= j < 6 ==> !Blacklisted(m.Slots()[j]))
    && m.blueScore != -1 && m.redScore != -1
    && (forall j :: 0 <= j < |m.RequiredSlots(year)| ==> m.RequiredSlots(year)[j].Some?)
  }

  /** The combined mask of `filter_matches` for one season. */
  function KeepMask(year: int): Match -> bool {
    m => Keep(m, year)
  }

  function FilterMatches(ms: seq<Match>, year: int): seq<Match> {
    Filter(ms, KeepMask(year))
  }

  /** The era rule spelled out: red1, red2, blue1 and blue2 are always required,
      red3 and blue3 only from 2005. */
  lemma KeepSpelledOut(m: Match, year: int)
    ensures Keep(m, year) <==>
              && (forall j :: 0 <= j < 6 ==> !Blacklisted(m.Slots()[j]))
              && m.redScore != -1 && m.blueScore != -1
              && m.red1.Some? && m.red2.Some? && m.blue1.Some? && m.blue2.Some?
              && (year >= 2005 ==> m.red3.Some? && m.blue3.Some?)
  {
    var req := m.RequiredSlots(year);
    if year < 2005 {
      assert req[0] == m.red1 && req[1] == m.red2 && req[2] == m.blue1 && req[3] == m.blue2;
    } else {
      assert req[0] == m.red1 && req[1] == m.red2 && req[2] == m.red3;
      assert req[3] == m.blue1 && req[4] == m.blue2 && req[5] == m.blue3;
    }
  }

  /** A row survives the filter exactly when it passes all three masks; survivors keep
      their order, and filtering twice is filtering once. */
  lemma FilterMatchesSpec(ms: seq<Match>, more: seq<Match>, year: int)
    ensures forall m :: m in FilterMatches(ms, year) <==> m in ms && Keep(m, year)
    ensures FilterMatches(ms + more, year) == FilterMatches(ms, year) + FilterMatches(more, year)
    ensures FilterMatches(FilterMatches(ms, year), year) == FilterMatches(ms, year)
  {
    FilterAppend(ms, more, KeepMask(year));
    FilterIdempotent(ms, KeepMask(year));
  }

  /** No kept match names a blacklisted team. */
  lemma KeptMatchHasNoBlacklistedTeam(m: Match, year: int)
    requires Keep(m, year)
    ensures forall t :: t in m.Teams() ==> t !in TEAM_BLACKLIST
  {
  }

  /** `get_events`: the event keys, each once, in order of first appearance. */
  function GetEvents(ms: seq<Match>): (events: seq<string>)
    ensures forall e :: e in events <==> exists i :: 0 <= i < |ms| && ms[i].eventKey == e
  {
    var keys := seq(|ms|, i requires 0 <= i < |ms| => ms[i].eventKey);
    assert forall i :: 0 <= i < |ms| ==> keys[i] == ms[i].eventKey;
    Dedup(keys)
  }

  /** The event list has no repeats and follows first appearance in the table. */
  lemma GetEventsOrder(ms: seq<Match>)
    ensures var keys := seq(|ms|, i requires 0 <= i < |ms| => ms[i].eventKey);
            var events := GetEvents(ms);
            && (forall a, b :: 0 <= a < b < |events| ==> events[a] != events[b])
            && (forall a, b :: 0 <= a < b < |events| ==> FirstIndex(keys, events[a]) < FirstIndex(keys, events[b]))
  {
    DedupFirstAppearanceOrder(seq(|ms|, i requires 0 <= i < |ms| => ms[i].eventKey));
  }

  function EventMask(event: string): Match -> bool {
    (m: Match) => m.eventKey == event
  }

  /** The rows of one event, in table order. */
  function EventMatches(ms: seq<Match>, event: string): seq<Match> {
    Filter(ms, EventMask(event))
  }

  /** `get_event_teams`: the non-missing keys in the six slots of the event's rows. */
  function EventTeams(ms: seq<Match>, event: string): (teams: set<string>)
    ensures forall t :: t in teams <==> exists i :: 0 <= i < |ms| && ms[i].eventKey == event && t in ms[i].Teams()
  {
    if |ms| == 0 then {}
    else
      var rest := EventTeams(ms[1..], event);
      assert forall i :: 1 <= i < |ms| ==> ms[1..][i - 1] == ms[i];
      (if ms[0].eventKey == event then ms[0].Teams() else {}) + rest
  }

  /** A team is a participant of an event exactly when one of its rows names it in
      some slot; so every row of the event names only participants. */
  lemma EventTeamsCoverEventMatches(ms: seq<Match>, event: string)
    ensures forall t :: t in EventTeams(ms, event) <==>
              exists m :: m in EventMatches(ms, event) && Some(t) in m.Slots()
    ensures forall m :: m in EventMatches(ms, event) ==> m.Teams() <= EventTeams(ms, event)
  {
    forall t
      ensures t in EventTeams(ms, event) <==> exists m :: m in EventMatches(ms, event) && Some(t) in m.Slots()
    {
      if t in EventTeams(ms, event) {
        var i :| 0 <= i < |ms| && ms[i].eventKey == event && t in ms[i].Teams();
        var j :| 0 <= j < 6 && ms[i].Slots()[j] == Some(t);
        assert ms[i] in EventMatches(ms, event);
      }
      if exists m :: m in EventMatches(ms, event) && Some(t) in m.Slots() {
        var m :| m in EventMatches(ms, event) && Some(t) in m.Slots();
        var i :| 0 <= i < |ms| && ms[i] == m;
        var j :| 0 <= j < 6 && m.Slots()[j] == Some(t);
        assert t in ms[i].Teams();
      }
    }
    forall m | m in EventMatches(ms, event)
      ensures m.Teams() <= EventTeams(ms, event)
    {
      var i :| 0 <= i < |ms| && ms[i] == m;
    }
  }

  /** Every team named anywhere in the season's rows. */
  function SeasonTeams(ms: seq<Match>): (teams: set<string>)
    ensures forall t :: t in teams <==> exists i :: 0 <= i < |ms| && t in ms[i].Teams()
  {
    if |ms| == 0 then {}
    else
      var rest := SeasonTeams(ms[1..]);
      assert forall i :: 1 <= i < |ms| ==> ms[1..][i - 1] == ms[i];
      ms[0].Teams() + rest
  }

  /** The participants of the listed events. */
  function TeamsOfEvents(ms: seq<Match>, events: seq<string>): set<string> {
    if |events| == 0 then {}
    else TeamsOfEvents(ms, events[..|events| - 1]) + EventTeams(ms, events[|events| - 1])
  }

  lemma {:induction false} TeamsOfEventsMembers(ms: seq<Match>, events: seq<string>)
    ensures forall t :: t in TeamsOfEvents(ms, events) <==> exists j :: 0 <= j < |events| && t in EventTeams(ms, events[j])
  {
    if |events| > 0 {
      var p := events[..|events| - 1];
      TeamsOfEventsMembers(ms, p);
      assert forall j :: 0 <= j < |p| ==> p[j] == events[j];
    }
  }

  /** The season's teams are exactly the participants of its events. */
  lemma SeasonTeamsAreEventTeams(ms: seq<Match>)
    ensures SeasonTeams(ms) == TeamsOfEvents(ms, GetEvents(ms))
  {
    var events := GetEvents(ms);
    TeamsOfEventsMembers(ms, events);
    forall t | t in SeasonTeams(ms)
      ensures t in TeamsOfEvents(ms, events)
    {
      var i :| 0 <= i < |ms| && t in ms[i].Teams();
      assert ms[i].eventKey in events;
      var j :| 0 <= j < |events| && events[j] == ms[i].eventKey;
      assert t in EventTeams(ms, events[j]);
    }
  }

  /** How many rows the listed events hold between them. */
  function EventSizes(ms: seq<Match>, events: seq<string>): nat {
    if |events| == 0 then 0
    else EventSizes(ms, events[..|events| - 1]) + |EventMatches(ms, events[|events| - 1])|
  }

  /** The rows of the listed events, event by event, each event's rows in table order:
      the order in which a season replays its rows. */
  function EventRows(ms: seq<Match>, events: seq<string>): (rows: seq<Match>)
    ensures |rows| == EventSizes(ms, events)
  {
    if |events| == 0 then []
    else EventRows(ms, events[..|events| - 1]) + EventMatches(ms, events[|events| - 1])
  }

  /** A row is among the listed events' rows exactly when it is a row of the table
      and its event is listed. */
  lemma {:induction false} EventRowsMembers(ms: seq<Match>, events: seq<string>)
    ensures forall m :: m in EventRows(ms, events) <==> m in ms && m.eventKey in events
  {
    if |events| > 0 {
      EventRowsMembers(ms, events[..|events| - 1]);
      assert events == events[..|events| - 1] + [events[|events| - 1]];
    }
  }

  /** How often `x` is listed. */
  function Occurrences(x: string, events: seq<string>): nat {
    if |events| == 0 then 0
    else Occurrences(x, events[..|events| - 1]) + (if events[|events| - 1] == x then 1 else 0)
  }

  lemma {:induction false} OccursOnce(x: string, events: seq<string>)
    requires forall a, b :: 0 <= a < b < |events| ==> events[a] != events[b]
    ensures Occurrences(x, events) == (if x in events then 1 else 0)
  {
    if |events| > 0 {
      var p := events[..|events| - 1];
      assert events == p + [events[|events| - 1]];
      OccursOnce(x, p);
      if events[|events| - 1] == x {
        assert x !in p;
      }
    }
  }

  lemma {:induction false} EventSizesOfEmpty(events: seq<string>)
    ensures EventSizes([], events) == 0
  {
    if |events| > 0 {
      EventSizesOfEmpty(events[..|events| - 1]);
    }
  }

  /** Prepending a row adds one to its own event's size and nothing to the others. */
  lemma {:induction false} EventSizesCons(m: Match, rest: seq<Match>, events: seq<string>)
    ensures EventSizes([m] + rest, events) == Occurrences(m.eventKey, events) + EventSizes(rest, events)
  {
    if |events| > 0 {
      var last := events[|events| - 1];
      EventSizesCons(m, rest, events[..|events| - 1]);
      assert ([m] + rest)[1..] == rest;
      assert |EventMatches([m] + rest, last)| == (if m.eventKey == last then 1 else 0) + |EventMatches(rest, last)|;
    }
  }

  /** Events without repeats that cover every row partition the rows: their sizes
      add up to the number of rows. */
  lemma {:induction false} EventsPartitionRows(ms: seq<Match>, events: seq<string>)
    requires forall a, b :: 0 <= a < b < |events| ==> events[a] != events[b]
    requires forall i :: 0 <= i < |ms| ==> ms[i].eventKey in events
    ensures EventSizes(ms, events) == |ms|
  {
    if |ms| == 0 {
      EventSizesOfEmpty(events);
    } else {
      assert ms == [ms[0]] + ms[1..];
      EventsPartitionRows(ms[1..], events);
      EventSizesCons(ms[0], ms[1..], events);
      OccursOnce(ms[0].eventKey, events);
    }
  }

  /** Prepending a row adds it once for every listing of its event. */
  lemma {:induction false} EventRowsCons(m: Match, rest: seq<Match>, events: seq<string>)
    ensures multiset(EventRows([m] + rest, events))
              == multiset(EventRows(rest, events)) + multiset{}[m := Occurrences(m.eventKey, events)]
  {
    if |events| > 0 {
      var p, last := events[..|events| - 1], events[|events| - 1];
      EventRowsCons(m, rest, p);
      assert ([m] + rest)[1..] == rest;
      assert EventMatches([m] + rest, last) == (if m.eventKey == last then [m] else []) + EventMatches(rest, last);
      if m.eventKey == last {
        assert multiset{}[m := Occurrences(m.eventKey, p) + 1]
                 == multiset{}[m := Occurrences(m.eventKey, p)] + multiset{m};
      }
    }
  }

  /** Events without repeats that cover every row replay each row exactly as often
      as the table holds it. */
  lemma {:induction false} EventRowsPermuteRows(ms: seq<Match>, events: seq<string>)
    requires forall a, b :: 0 <= a < b < |events| ==> events[a] != events[b]
    requires forall i :: 0 <= i < |ms| ==> ms[i].eventKey in events
    ensures EventSizes(ms, events) == |ms|
    ensures multiset(EventRows(ms, events)) == multiset(ms)
  {
    EventsPartitionRows(ms, events);
    if |ms| == 0 {
      EventSizesOfEmpty(events);
    } else {
      assert ms == [ms[0]] + ms[1..];
      EventRowsPermuteRows(ms[1..], events);
      EventRowsCons(ms[0], ms[1..], events);
      OccursOnce(ms[0].eventKey, events);
      assert multiset{}[ms[0] := 1] == multiset{ms[0]};
    }
  }

  /** Every kept row belongs to exactly one listed event: replaying the events'
      rows replays the table's rows, each as often as it occurs. */
  lemma GetEventsPartitionsRows(ms: seq<Match>)
    ensures EventSizes(ms, GetEvents(ms)) == |ms|
    ensures multiset(EventRows(ms, GetEvents(ms))) == multiset(ms)
  {
    var events := GetEvents(ms);
    GetEventsOrder(ms);
    assert forall i :: 0 <= i < |ms| ==> ms[i].eventKey in events;
    EventRowsPermuteRows(ms, events);
  }
}
