/**
 * The spatial unit query: units sit in the lists of several overlapping quads, and a stamp written
 * for each visited unit keeps it from being reported twice. Units are ids.
 */
module UnitQuery {
  import opened Wrappers

  datatype UnitId = UnitId(id: int)

  /** The units of one quad by ally team. */
  type Quad = seq<seq<UnitId>>

  predicate HasTeams(quads: seq<Quad>, teams: nat) {
    forall k :: 0 <= k < |quads| ==> teams <= |quads[k]|
  }

  // ------------------------------------------------------------------- the lists in scan order

  function TeamScope(quads: seq<Quad>, team: nat): seq<UnitId>
    requires HasTeams(quads, team + 1)
  {
    if quads == [] then [] else TeamScope(quads[..|quads| - 1], team) + quads[|quads| - 1][team]
  }

  /** Everything the query walks: accepted team by accepted team, quad by quad. */
  function Scope(quads: seq<Quad>, teamOk: nat -> bool, teams: nat): seq<UnitId>
    requires HasTeams(quads, teams)
  {
    if teams == 0 then []
    else Scope(quads, teamOk, teams - 1) + TeamPart(quads, teamOk, teams - 1)
  }

  function TeamPart(quads: seq<Quad>, teamOk: nat -> bool, team: nat): seq<UnitId>
    requires HasTeams(quads, team + 1)
  {
    if teamOk(team) then TeamScope(quads, team) else []
  }

  predicate ListedAt(q: Quad, team: nat, u: UnitId) {
    team < |q| && u in q[team]
  }

  predicate Listed(quads: seq<Quad>, team: nat, u: UnitId) {
    exists k :: 0 <= k < |quads| && ListedAt(quads[k], team, u)
  }

  lemma ListedSplits(quads: seq<Quad>, team: nat, u: UnitId)
    requires quads != []
    ensures var n := |quads| - 1;
            Listed(quads, team, u) <==> Listed(quads[..n], team, u) || ListedAt(quads[n], team, u)
  {
    var n := |quads| - 1;
    if k :| 0 <= k < n && ListedAt(quads[..n][k], team, u) {
      assert ListedAt(quads[k], team, u);
    }
    if k :| 0 <= k < |quads| && ListedAt(quads[k], team, u) {
      assert k < n ==> ListedAt(quads[..n][k], team, u);
    }
  }

  lemma {:induction false} TeamScopeMembers(quads: seq<Quad>, team: nat, u: UnitId)
    requires HasTeams(quads, team + 1)
    ensures u in TeamScope(quads, team) <==> Listed(quads, team, u)
  {
    if quads != [] {
      TeamScopeMembers(quads[..|quads| - 1], team, u);
      ListedSplits(quads, team, u);
    }
  }

  predicate Reached(quads: seq<Quad>, teamOk: nat -> bool, teams: nat, u: UnitId) {
    exists t: nat :: t < teams && teamOk(t) && Listed(quads, t, u)
  }

  /** The walk reaches exactly the units listed for an accepted team in some quad. */
  lemma {:induction false} ScopeMembers(quads: seq<Quad>, teamOk: nat -> bool, teams: nat, u: UnitId)
    requires HasTeams(quads, teams)
    ensures u in Scope(quads, teamOk, teams) <==> Reached(quads, teamOk, teams, u)
  {
    if teams > 0 {
      ScopeMembers(quads, teamOk, teams - 1, u);
      TeamScopeMembers(quads, teams - 1, u);
      assert u in Scope(quads, teamOk, teams)
        <==> u in Scope(quads, teamOk, teams - 1) || u in TeamPart(quads, teamOk, teams - 1);
      assert Reached(quads, teamOk, teams, u)
        <==> Reached(quads, teamOk, teams - 1, u) || (teamOk(teams - 1) && Listed(quads, teams - 1, u));
    }
  }

  // ------------------------------------------------------------------------- visiting a list

  /** The units stamped so far and those passed to AddUnit so far, in order. */
  datatype Visits = Visits(stamped: set<UnitId>, added: seq<UnitId>)

  function Visit(v: Visits, u: UnitId, unitOk: UnitId -> bool): Visits {
    if u in v.stamped then v
    else Visits(v.stamped + {u}, if unitOk(u) then v.added + [u] else v.added)
  }

  function VisitAll(v: Visits, us: seq<UnitId>, unitOk: UnitId -> bool): Visits
    decreases us
  {
    if us == [] then v else VisitAll(Visit(v, us[0], unitOk), us[1..], unitOk)
  }

  lemma {:induction false} VisitConcat(v: Visits, a: seq<UnitId>, b: seq<UnitId>, unitOk: UnitId -> bool)
    ensures VisitAll(v, a + b, unitOk) == VisitAll(VisitAll(v, a, unitOk), b, unitOk)
    decreases a
  {
    if a == [] {
      assert a + b == b;
    } else {
      VisitConcat(Visit(v, a[0], unitOk), a[1..], b, unitOk);
      assert (a + b)[1..] == a[1..] + b;
    }
  }

  predicate Distinct(s: seq<UnitId>) {
    forall i, j :: 0 <= i < j < |s| ==> s[i] != s[j]
  }

  predicate AddedAreStamped(v: Visits) {
    forall u :: u in v.added ==> u in v.stamped
  }

  /** Each unit passing the filter and not stamped before is added exactly once; nothing else is. */
  lemma {:induction false} VisitedOnce(v: Visits, us: seq<UnitId>, unitOk: UnitId -> bool)
    requires Distinct(v.added) && AddedAreStamped(v)
    ensures var w := VisitAll(v, us, unitOk);
            Distinct(w.added) && v.added <= w.added
            && (forall u :: u in w.added <==> u in v.added || (u in us && u !in v.stamped && unitOk(u)))
            && (forall u :: u in w.stamped <==> u in v.stamped || u in us)
    decreases us
  {
    if us != [] {
      VisitedOnce(Visit(v, us[0], unitOk), us[1..], unitOk);
      assert us == [us[0]] + us[1..];
    }
  }

  // ----------------------------------------------------------------------------- the query

  /** Keeps the closest unit it is given; the later one when two are equally close. */
  class ClosestUnit {
    const sqDist: UnitId -> real
    const sqRadius: real
    var closeSqDist: real
    var closeUnit: Option<UnitId>
    /** Everything passed to AddUnit, in order, and where in it the kept unit stands. */
    ghost var added: seq<UnitId>
    ghost var at: nat

    ghost predicate Valid()
      reads this
    {
      if closeUnit.None? then
        closeSqDist == sqRadius && forall j :: 0 <= j < |added| ==> sqRadius < sqDist(added[j])
      else
        closeSqDist == sqDist(closeUnit.value) <= sqRadius
        && at < |added| && added[at] == closeUnit.value
        && (forall j :: 0 <= j < at ==> closeSqDist <= sqDist(added[j]))
        && (forall j :: at < j < |added| ==> closeSqDist < sqDist(added[j]))
    }

    /** `distance` is the squared planar distance of a unit's middle from the search position. */
    constructor (distance: UnitId -> real, searchRadius: real)
      ensures Valid() && added == [] && closeUnit == None
      ensures sqRadius == searchRadius * searchRadius && sqDist == distance
    {
      sqDist, sqRadius := distance, searchRadius * searchRadius;
      closeSqDist, closeUnit, added, at := searchRadius * searchRadius, None, [], 0;
    }

    method AddUnit(u: UnitId)
      requires Valid()
      modifies this
      ensures Valid() && added == old(added) + [u]
    {
      var d := sqDist(u);
      added := added + [u];
      if d <= closeSqDist {
        closeSqDist, closeUnit, at := d, Some(u), |added| - 1;
      }
    }
  }

  /** The tempNum field of every unit that was ever visited. */
  class Stamps {
    var tempNum: map<UnitId, int>

    predicate Carries(u: UnitId, stamp: int)
      reads this
    {
      u in tempNum && tempNum[u] == stamp
    }
  }

  /** Every unit carries the new stamp or what it carried before, if anything. */
  predicate OnlyStamped(before: map<UnitId, int>, after: map<UnitId, int>, stamp: int) {
    (forall u :: u in after ==> after[u] == stamp || (u in before && after[u] == before[u]))
    && before.Keys <= after.Keys
  }

  /** The stamps and the query object stand where the visits say. */
  ghost predicate At(v: Visits, stamps: Stamps, stamp: int, query: ClosestUnit)
    reads stamps, query
  {
    query.Valid() && query.added == v.added
    && forall u :: stamps.Carries(u, stamp) <==> u in v.stamped
  }

  /** The body of the innermost loop. */
  method QueryUnit(u: UnitId, stamps: Stamps, stamp: int, unitOk: UnitId -> bool,
                   query: ClosestUnit, ghost v: Visits)
    requires At(v, stamps, stamp, query)
    modifies query, stamps
    ensures At(Visit(v, u, unitOk), stamps, stamp, query)
    ensures OnlyStamped(old(stamps.tempNum), stamps.tempNum, stamp)
  {
    if stamps.Carries(u, stamp) {
      return;
    }
    stamps.tempNum := stamps.tempNum[u := stamp];
    if !unitOk(u) {
      return;
    }
    query.AddUnit(u);
  }

  /** One list of one quad. */
  method QueryList(us: seq<UnitId>, stamps: Stamps, stamp: int, unitOk: UnitId -> bool,
                   query: ClosestUnit, ghost v: Visits)
    requires At(v, stamps, stamp, query)
    modifies query, stamps
    ensures At(VisitAll(v, us, unitOk), stamps, stamp, query)
    ensures OnlyStamped(old(stamps.tempNum), stamps.tempNum, stamp)
  {
    var i := 0;
    ghost var now := v;
    while i < |us|
      invariant 0 <= i <= |us|
      invariant At(now, stamps, stamp, query)
      invariant VisitAll(now, us[i..], unitOk) == VisitAll(v, us, unitOk)
      invariant OnlyStamped(old(stamps.tempNum), stamps.tempNum, stamp)
    {
      assert us[i..][0] == us[i] && us[i..][1..] == us[i + 1..];
      QueryUnit(us[i], stamps, stamp, unitOk, query, now);
      now := Visit(now, us[i], unitOk);
      i := i + 1;
    }
  }

  /** The loop over the quads for one accepted team. */
  method QueryTeam(quads: seq<Quad>, team: nat, stamps: Stamps, stamp: int, unitOk: UnitId -> bool,
                   query: ClosestUnit, ghost v: Visits)
    requires HasTeams(quads, team + 1)
    requires At(v, stamps, stamp, query)
    modifies query, stamps
    ensures At(VisitAll(v, TeamScope(quads, team), unitOk), stamps, stamp, query)
    ensures OnlyStamped(old(stamps.tempNum), stamps.tempNum, stamp)
  {
    var k := 0;
    while k < |quads|
      invariant 0 <= k <= |quads|
      invariant At(VisitAll(v, TeamScope(quads[..k], team), unitOk), stamps, stamp, query)
      invariant OnlyStamped(old(stamps.tempNum), stamps.tempNum, stamp)
    {
      ghost var done := TeamScope(quads[..k], team);
      assert quads[..k + 1][..k] == quads[..k];
      VisitConcat(v, done, quads[k][team], unitOk);
      QueryList(quads[k][team], stamps, stamp, unitOk, query, VisitAll(v, done, unitOk));
      k := k + 1;
    }
    assert quads[..|quads|] == quads;
  }

  /** One turn of the loop over the ally teams. */
  method QueryTeamIfAccepted(quads: seq<Quad>, teamOk: nat -> bool, team: nat, stamps: Stamps, stamp: int,
                             unitOk: UnitId -> bool, query: ClosestUnit, ghost v: Visits)
    requires HasTeams(quads, team + 1)
    requires At(v, stamps, stamp, query)
    modifies query, stamps
    ensures At(VisitAll(v, TeamPart(quads, teamOk, team), unitOk), stamps, stamp, query)
    ensures OnlyStamped(old(stamps.tempNum), stamps.tempNum, stamp)
  {
    if !teamOk(team) {
      return;
    }
    QueryTeam(quads, team, stamps, stamp, unitOk, query, v);
  }

  /**
   * Passes to AddUnit, once each and in scan order, exactly the units of accepted teams that pass
   * the filter and do not carry the stamp yet.
   */
  method QueryUnits(quads: seq<Quad>, teams: nat, teamOk: nat -> bool, stamps: Stamps, stamp: int,
                    unitOk: UnitId -> bool, query: ClosestUnit, ghost v: Visits)
    requires HasTeams(quads, teams)
    requires At(v, stamps, stamp, query)
    modifies query, stamps
    ensures At(VisitAll(v, Scope(quads, teamOk, teams), unitOk), stamps, stamp, query)
    ensures OnlyStamped(old(stamps.tempNum), stamps.tempNum, stamp)
  {
    var t := 0;
    ghost var now := v;
    assert VisitAll(v, Scope(quads, teamOk, 0), unitOk) == v;
    hide VisitAll, TeamPart;
    while t < teams
      invariant 0 <= t <= teams
      invariant now == VisitAll(v, Scope(quads, teamOk, t), unitOk)
      invariant At(now, stamps, stamp, query)
      invariant OnlyStamped(old(stamps.tempNum), stamps.tempNum, stamp)
    {
      VisitConcat(v, Scope(quads, teamOk, t), TeamPart(quads, teamOk, t), unitOk);
      QueryTeamIfAccepted(quads, teamOk, t, stamps, stamp, unitOk, query, now);
      now := VisitAll(now, TeamPart(quads, teamOk, t), unitOk);
      t := t + 1;
    }
  }

  /** None if no unit of the scope that passes the filter is within the radius, else a closest one. */
  ghost predicate IsClosest(
    closest: Option<UnitId>, scope: seq<UnitId>, unitOk: UnitId -> bool, sqDist: UnitId -> real, sqRadius: real)
  {
    match closest
    case None => forall u :: u in scope && unitOk(u) ==> sqRadius < sqDist(u)
    case Some(c) =>
      c in scope && unitOk(c) && sqDist(c) <= sqRadius
      && forall u :: u in scope && unitOk(u) ==> sqDist(c) <= sqDist(u)
  }

  lemma KeptIsClosest(query: ClosestUnit, scope: seq<UnitId>, unitOk: UnitId -> bool)
    requires query.Valid() && query.added == VisitAll(Visits({}, []), scope, unitOk).added
    ensures IsClosest(query.closeUnit, scope, unitOk, query.sqDist, query.sqRadius)
  {
    VisitedOnce(Visits({}, []), scope, unitOk);
    forall u | u in scope && unitOk(u)
      ensures if query.closeUnit.None? then query.sqRadius < query.sqDist(u) else query.closeSqDist <= query.sqDist(u)
    {
      assert u in query.added;
    }
  }

  /** With a stamp no unit carries yet, the result is a closest eligible unit, or none when there is none. */
  method GetClosestUnit(quads: seq<Quad>, teams: nat, teamOk: nat -> bool, stamps: Stamps, stamp: int,
                        unitOk: UnitId -> bool, sqDist: UnitId -> real, radius: real)
    returns (closest: Option<UnitId>)
    requires HasTeams(quads, teams)
    requires stamp !in stamps.tempNum.Values
    modifies stamps
    ensures IsClosest(closest, Scope(quads, teamOk, teams), unitOk, sqDist, radius * radius)
    ensures forall u :: u in stamps.tempNum && stamps.tempNum[u] == stamp <==> u in Scope(quads, teamOk, teams)
    ensures OnlyStamped(old(stamps.tempNum), stamps.tempNum, stamp)
  {
    var query := new ClosestUnit(sqDist, radius);
    QueryUnits(quads, teams, teamOk, stamps, stamp, unitOk, query, Visits({}, []));
    VisitedOnce(Visits({}, []), Scope(quads, teamOk, teams), unitOk);
    KeptIsClosest(query, Scope(quads, teamOk, teams), unitOk);
    closest := query.closeUnit;
  }
}
