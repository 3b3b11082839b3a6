/** The rating tables the replay keeps (model_test.py): one Rating per team in the
    legacy seasons, three (auto, teleop, endgame) per team from 2016; the per-event
    initialisation, the per-match write-back and the promotion between the two. */
module Tables {
  import opened Wrappers
  import opened Ratings
  import opened Seqs

  const STARTING_MU: real := 25.0
  const STARTING_SIGMA: real := STARTING_MU / 3.0
  /** The sigma every returning participant starts an event with. */
  const SIGMA_RESET: real := STARTING_SIGMA

  datatype Component = Auto | Teleop | Endgame {
    /** The suffix of the component's rating name. */
    function Name(): string {
      match this
      case Auto => "auto"
      case Teleop => "teleop"
      case Endgame => "endgame"
    }
  }

  /** A team's three component ratings. */
  datatype Trio = Trio(auto: Rating, teleop: Rating, endgame: Rating) {
    function Get(c: Component): Rating {
      match c
      case Auto => auto
      case Teleop => teleop
      case Endgame => endgame
    }

    function Set(c: Component, r: Rating): Trio {
      match c
      case Auto => this.(auto := r)
      case Teleop => this.(teleop := r)
      case Endgame => this.(endgame := r)
    }
  }

  /** Setting a component reads back, and leaves the other two alone. */
  lemma TrioSetGet(t: Trio, c: Component, d: Component, r: Rating)
    ensures t.Set(c, r).Get(c) == r
    ensures d != c ==> t.Set(c, r).Get(d) == t.Get(d)
    ensures t.Set(c, t.Get(c)) == t
  {
  }

  /** One component of every team, as a legacy-shaped table. */
  function Project(ratings: map<string, Trio>, c: Component): (view: map<string, Rating>)
    ensures view.Keys == ratings.Keys
  {
    map t | t in ratings :: ratings[t].Get(c)
  }

  /** Writes a component table back into the trios. */
  function Inject(ratings: map<string, Trio>, c: Component, view: map<string, Rating>): (r: map<string, Trio>)
    requires view.Keys == ratings.Keys
    ensures r.Keys == ratings.Keys
  {
    map t | t in ratings :: ratings[t].Set(c, view[t])
  }

  /** Projection and injection are inverse, and components are independent: writing
      one component table leaves the others as they were. */
  lemma ProjectInject(ratings: map<string, Trio>, c: Component, d: Component, view: map<string, Rating>)
    requires view.Keys == ratings.Keys
    ensures Project(Inject(ratings, c, view), c) == view
    ensures d != c ==> Project(Inject(ratings, c, view), d) == Project(ratings, d)
    ensures Inject(ratings, c, Project(ratings, c)) == ratings
  {
    TrioSetGetAll(ratings, c, d, view);
  }

  lemma TrioSetGetAll(ratings: map<string, Trio>, c: Component, d: Component, view: map<string, Rating>)
    requires view.Keys == ratings.Keys
    ensures forall t :: t in ratings ==> ratings[t].Set(c, view[t]).Get(c) == view[t]
    ensures d != c ==> forall t :: t in ratings ==> ratings[t].Set(c, view[t]).Get(d) == ratings[t].Get(d)
    ensures forall t :: t in ratings ==> ratings[t].Set(c, ratings[t].Get(c)) == ratings[t]
  {
  }

  /** After the legacy seasons, each team's single rating becomes all three of its
      component ratings. */
  function Promote(ratings: map<string, Rating>): (r: map<string, Trio>) {
    map t | t in ratings :: Trio(ratings[t], ratings[t], ratings[t])
  }

  /** Every component table of the promoted ratings is the legacy table. */
  lemma PromoteCopiesEveryComponent(ratings: map<string, Rating>, c: Component)
    ensures Promote(ratings).Keys == ratings.Keys
    ensures Project(Promote(ratings), c) == ratings
  {
  }

  /** Every sigma in the table is positive. */
  predicate PositiveTable(ratings: map<string, Rating>) {
    forall t :: t in ratings ==> ratings[t].sigma > 0.0
  }

  predicate PositiveTrios(ratings: map<string, Trio>) {
    forall t :: t in ratings ==>
      ratings[t].auto.sigma > 0.0 && ratings[t].teleop.sigma > 0.0 && ratings[t].endgame.sigma > 0.0
  }

  lemma PositiveProjections(ratings: map<string, Trio>, c: Component)
    ensures PositiveTrios(ratings) <==>
              PositiveTable(Project(ratings, Auto)) && PositiveTable(Project(ratings, Teleop))
              && PositiveTable(Project(ratings, Endgame))
    ensures PositiveTrios(ratings) ==> PositiveTable(Project(ratings, c))
  {
    if PositiveTable(Project(ratings, Auto)) && PositiveTable(Project(ratings, Teleop))
       && PositiveTable(Project(ratings, Endgame)) {
      forall t | t in ratings
        ensures ratings[t].auto.sigma > 0.0 && ratings[t].teleop.sigma > 0.0 && ratings[t].endgame.sigma > 0.0
      {
        assert Project(ratings, Auto)[t] == ratings[t].auto;
        assert Project(ratings, Teleop)[t] == ratings[t].teleop;
        assert Project(ratings, Endgame)[t] == ratings[t].endgame;
      }
    }
  }

  /** The legacy seasons' rating for a team seen for the first time. */
  function LegacyFresh(team: string): Rating {
    Rating(STARTING_MU, STARTING_SIGMA, Some(team))
  }

  function LegacyReset(r: Rating): Rating {
    r.WithSigma(SIGMA_RESET)
  }

  /** The component seasons' ratings for a new team, named `<team>_<component>`. */
  function ComponentFresh(team: string): Trio {
    Trio(
      Rating(STARTING_MU, STARTING_SIGMA, Some(team + "_" + Auto.Name())),
      Rating(STARTING_MU, STARTING_SIGMA, Some(team + "_" + Teleop.Name())),
      Rating(STARTING_MU, STARTING_SIGMA, Some(team + "_" + Endgame.Name())))
  }

  function ComponentReset(t: Trio): Trio {
    Trio(t.auto.WithSigma(SIGMA_RESET), t.teleop.WithSigma(SIGMA_RESET), t.endgame.WithSigma(SIGMA_RESET))
  }

  /** The table at the start of an event, as one map. */
  function Started<V>(ratings: map<string, V>, teams: set<string>, newEntry: string -> V, resetEntry: V -> V)
    : map<string, V>
  {
    map t | t in ratings.Keys + teams ::
      if t !in teams then ratings[t] else if t in ratings then resetEntry(ratings[t]) else newEntry(t)
  }

  /** The start of an event: participants seen for the first time get a fresh entry,
      returning participants are reset, and every other team is left alone. The
      participants come from a set, so they are visited in no particular order, and
      the order does not matter: the result is always the same table. */
  method InitEvent<V>(ratings: map<string, V>, teams: set<string>, newEntry: string -> V, resetEntry: V -> V)
    returns (r: map<string, V>)
    ensures r == Started(ratings, teams, newEntry, resetEntry)
    ensures r.Keys == ratings.Keys + teams
    ensures forall t :: t in teams && t !in ratings ==> r[t] == newEntry(t)
    ensures forall t :: t in teams && t in ratings ==> r[t] == resetEntry(ratings[t])
    ensures forall t :: t in ratings && t !in teams ==> r[t] == ratings[t]
  {
    r := ratings;
    var todo := teams;
    while todo != {}
      invariant todo <= teams
      invariant r.Keys == ratings.Keys + (teams - todo)
      invariant forall t :: t in teams - todo && t !in ratings ==> r[t] == newEntry(t)
      invariant forall t :: t in teams - todo && t in ratings ==> r[t] == resetEntry(ratings[t])
      invariant forall t :: t in ratings && t !in teams - todo ==> r[t] == ratings[t]
      decreases todo
    {
      var t :| t in todo;
      if t !in r {
        r := r[t := newEntry(t)];
      } else {
        r := r[t := resetEntry(r[t])];
      }
      todo := todo - {t};
    }
  }

  /** The legacy table at an event start: new participants are (25, 25/3) under
      their own name, returning ones keep their mean and name with sigma reset to
      25/3, and every table entry keeps a positive sigma. */
  function LegacyStarted(ratings: map<string, Rating>, teams: set<string>): (r: map<string, Rating>)
    requires PositiveTable(ratings)
    ensures r.Keys == ratings.Keys + teams
    ensures forall t :: t in teams && t !in ratings ==> r[t] == Rating(25.0, 25.0 / 3.0, Some(t))
    ensures forall t :: t in teams && t in ratings ==>
              r[t].mu == ratings[t].mu && r[t].name == ratings[t].name && r[t].sigma == 25.0 / 3.0
    ensures forall t :: t in ratings && t !in teams ==> r[t] == ratings[t]
    ensures PositiveTable(r)
  {
    Started(ratings, teams, LegacyFresh, LegacyReset)
  }

  /** The component tables at an event start: every component of a new participant
      is (25, 25/3) named `<team>_<component>`; a returning participant's three
      sigmas are reset. */
  function ComponentStarted(ratings: map<string, Trio>, teams: set<string>): (r: map<string, Trio>)
    requires PositiveTrios(ratings)
    ensures r.Keys == ratings.Keys + teams
    ensures forall t, c :: t in teams && t !in ratings ==>
              r[t].Get(c) == Rating(25.0, 25.0 / 3.0, Some(t + "_" + c.Name()))
    ensures forall t, c :: t in teams && t in ratings ==>
              r[t].Get(c) == ratings[t].Get(c).(sigma := 25.0 / 3.0)
    ensures forall t :: t in ratings && t !in teams ==> r[t] == ratings[t]
    ensures PositiveTrios(r)
  {
    Started(ratings, teams, ComponentFresh, ComponentReset)
  }

  /** A legacy event start: new participants are (25, 25/3) under their own name,
      returning ones keep their mean and name with sigma reset to 25/3, and every
      table entry keeps a positive sigma. */
  method InitLegacyEvent(ratings: map<string, Rating>, teams: set<string>) returns (r: map<string, Rating>)
    requires PositiveTable(ratings)
    ensures r == LegacyStarted(ratings, teams)
    ensures r.Keys == ratings.Keys + teams
    ensures forall t :: t in teams && t !in ratings ==> r[t] == Rating(25.0, 25.0 / 3.0, Some(t))
    ensures forall t :: t in teams && t in ratings ==>
              r[t].mu == ratings[t].mu && r[t].name == ratings[t].name && r[t].sigma == 25.0 / 3.0
    ensures forall t :: t in ratings && t !in teams ==> r[t] == ratings[t]
    ensures PositiveTable(r)
  {
    r := InitEvent(ratings, teams, LegacyFresh, LegacyReset);
  }

  /** A component event start: every component of a new participant is (25, 25/3)
      named `<team>_<component>`; a returning participant's three sigmas are reset. */
  method InitComponentEvent(ratings: map<string, Trio>, teams: set<string>) returns (r: map<string, Trio>)
    requires PositiveTrios(ratings)
    ensures r == ComponentStarted(ratings, teams)
    ensures r.Keys == ratings.Keys + teams
    ensures forall t, c :: t in teams && t !in ratings ==>
              r[t].Get(c) == Rating(25.0, 25.0 / 3.0, Some(t + "_" + c.Name()))
    ensures forall t, c :: t in teams && t in ratings ==>
              r[t].Get(c) == ratings[t].Get(c).(sigma := 25.0 / 3.0)
    ensures forall t :: t in ratings && t !in teams ==> r[t] == ratings[t]
    ensures PositiveTrios(r)
  {
    r := InitEvent(ratings, teams, ComponentFresh, ComponentReset);
  }

  /** The table after `table[keys[i]] = values[i]` for each i in turn. */
  function Written<V>(table: map<string, V>, keys: seq<string>, values: seq<V>): map<string, V>
    requires |keys| == |values|
    decreases |keys|
  {
    if |keys| == 0 then table
    else Written(table, keys[..|keys| - 1], values[..|values| - 1])[keys[|keys| - 1] := values[|values| - 1]]
  }

  /** A run of assignments: the last write to a key wins, keys not written keep their
      entries, and the table gains exactly the written keys. */
  lemma WrittenLastWins<V>(table: map<string, V>, keys: seq<string>, values: seq<V>)
    requires |keys| == |values|
    ensures Written(table, keys, values).Keys == table.Keys + (set k | k in keys)
    ensures forall i :: 0 <= i < |keys| && LastAt(keys, i) ==> Written(table, keys, values)[keys[i]] == values[i]
    ensures forall t :: t in table && t !in keys ==> Written(table, keys, values)[t] == table[t]
  {
    WrittenKeys(table, keys, values);
    WrittenKeepsUnwritten(table, keys, values);
    forall i | 0 <= i < |keys| && LastAt(keys, i)
      ensures Written(table, keys, values)[keys[i]] == values[i]
    {
      WrittenLast(table, keys, values, i);
    }
  }

  lemma {:induction false} WrittenKeys<V>(table: map<string, V>, keys: seq<string>, values: seq<V>)
    requires |keys| == |values|
    ensures Written(table, keys, values).Keys == table.Keys + (set k | k in keys)
    decreases |keys|
  {
    if |keys| > 0 {
      var k := |keys| - 1;
      WrittenKeys(table, keys[..k], values[..k]);
      assert keys == keys[..k] + [keys[k]];
    }
  }

  lemma {:induction false} WrittenKeepsUnwritten<V>(table: map<string, V>, keys: seq<string>, values: seq<V>)
    requires |keys| == |values|
    ensures forall t :: t in table && t !in keys ==> t in Written(table, keys, values) && Written(table, keys, values)[t] == table[t]
    decreases |keys|
  {
    if |keys| > 0 {
      var k := |keys| - 1;
      WrittenKeys(table, keys[..k], values[..k]);
      WrittenKeepsUnwritten(table, keys[..k], values[..k]);
      assert keys == keys[..k] + [keys[k]];
    }
  }

  /** The write at position i survives when no later write has the same key. */
  lemma {:induction false} WrittenLast<V>(table: map<string, V>, keys: seq<string>, values: seq<V>, i: int)
    requires |keys| == |values| && 0 <= i < |keys| && LastAt(keys, i)
    ensures keys[i] in Written(table, keys, values)
    ensures Written(table, keys, values)[keys[i]] == values[i]
    decreases |keys|
  {
    var k := |keys| - 1;
    var p, q := keys[..k], values[..k];
    if i < k {
      assert p[i] == keys[i] && q[i] == values[i];
      WrittenLast(table, p, q, i);
    }
  }

  /** Every entry of the written table is an old entry or one of the written values. */
  lemma WrittenProvenance<V>(table: map<string, V>, keys: seq<string>, values: seq<V>)
    requires |keys| == |values|
    ensures forall t :: t in Written(table, keys, values) ==>
              (t in table && t !in keys && Written(table, keys, values)[t] == table[t])
              || exists i :: 0 <= i < |keys| && keys[i] == t && Written(table, keys, values)[t] == values[i]
  {
    WrittenLastWins(table, keys, values);
    forall t | t in Written(table, keys, values) && t in keys
      ensures exists i :: 0 <= i < |keys| && keys[i] == t && Written(table, keys, values)[t] == values[i]
    {
      var i := LastIndex(keys, t);
    }
  }

  /** `ratings[keys[i]] = values[i]` for each i in turn: the last write to a key wins,
      and keys not written keep their entries. */
  method WriteBack<V>(ratings: map<string, V>, keys: seq<string>, values: seq<V>) returns (r: map<string, V>)
    requires |keys| == |values|
    ensures r == Written(ratings, keys, values)
    ensures r.Keys == ratings.Keys + (set k | k in keys)
    ensures forall i :: 0 <= i < |keys| && LastAt(keys, i) ==> r[keys[i]] == values[i]
    ensures forall t :: t in ratings && t !in keys ==> r[t] == ratings[t]
    ensures forall t :: t in r ==>
              (t in ratings && r[t] == ratings[t]) || exists i :: 0 <= i < |keys| && keys[i] == t && r[t] == values[i]
  {
    r := ratings;
    for i := 0 to |keys|
      invariant r == Written(ratings, keys[..i], values[..i])
    {
      assert keys[..i + 1][..i] == keys[..i] && values[..i + 1][..i] == values[..i];
      r := r[keys[i] := values[i]];
    }
    assert keys[..|keys|] == keys && values[..|values|] == values;
    WrittenLastWins(ratings, keys, values);
    WrittenProvenance(ratings, keys, values);
  }

  /** The ratings of the listed teams, in order. */
  function Lookup(ratings: map<string, Rating>, keys: seq<string>): (rs: seq<Rating>)
    requires forall k :: k in keys ==> k in ratings
    ensures |rs| == |keys|
    ensures forall i :: 0 <= i < |keys| ==> rs[i] == ratings[keys[i]]
  {
    seq(|keys|, i requires 0 <= i < |keys| => ratings[keys[i]])
  }
}
