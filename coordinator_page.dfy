/** The event coordinator's dashboard (app/coordinator/page.tsx): the
    participant list grouped by team, the team list, the expanded-team set
    and the winners list the page posts.  The grouping and the team order
    are shared with the overview page. */
module CoordinatorPage {
  import opened Common
  import opened Json
  import opened Ordering
  import Winners
  import Entities
  import JsObject

  datatype Participant = Participant(teamName: Option<string>, studentName: string, email: string,
                                     phone: string, college: string, studId: string, checkedIn: bool)

  /** The group of participants without a team. */
  const Individuals: string := "Individual Participants"

  /** `participant.team_name || "Individual Participants"` */
  function TeamOf(p: Participant): (r: string)
    ensures r != ""
    ensures Common.Truthy(p.teamName) ==> r == p.teamName.value
    ensures !Common.Truthy(p.teamName) ==> r == Individuals
  {
    OrElse(p.teamName, Individuals)
  }

  // ------------------------------------------------------------ unique teams

  /** Some participant carries the truthy team name `t`. */
  predicate HasNamedTeam(ps: seq<Participant>, t: string) {
    exists k :: 0 <= k < |ps| && Common.Truthy(ps[k].teamName) && ps[k].teamName.value == t
  }

  /** `new Set(filter(team_name).map(team_name))`: the truthy team names,
      each once, in order of first occurrence. */
  function NamedTeams(ps: seq<Participant>): (r: seq<string>)
    ensures NoDuplicates(r)
    ensures forall t :: t in r <==> HasNamedTeam(ps, t)
  {
    if ps == [] then []
    else
      var init := ps[..|ps| - 1];
      var last := ps[|ps| - 1];
      var prev := NamedTeams(init);
      assert forall k :: 0 <= k < |init| ==> init[k] == ps[k];
      assert forall t :: HasNamedTeam(ps, t) <==> HasNamedTeam(init, t) || (Common.Truthy(last.teamName) && last.teamName.value == t);
      if Common.Truthy(last.teamName) && last.teamName.value !in prev then prev + [last.teamName.value] else prev
  }

  /** `uniqueTeams`: every truthy team name once, in ascending order. */
  function UniqueTeams(ps: seq<Participant>): (r: seq<string>)
    ensures StrictlySorted(r) && NoDuplicates(r)
    ensures forall t :: t in r <==> HasNamedTeam(ps, t)
    ensures forall t :: t in r ==> t != ""
  {
    var r := SortDistinct(NamedTeams(ps));
    StrictlySortedDistinct(r);
    r
  }

  // ---------------------------------------------------------------- grouping

  /** The participants of group `team`, in input order. */
  function Members(ps: seq<Participant>, team: string): (r: seq<Participant>)
    ensures |r| <= |ps|
    ensures forall k :: 0 <= k < |r| ==> TeamOf(r[k]) == team
    ensures r != [] <==> HasGroup(ps, team)
  {
    if ps == [] then []
    else
      var init := ps[..|ps| - 1];
      assert forall k :: 0 <= k < |init| ==> init[k] == ps[k];
      assert HasGroup(ps, team) <==> HasGroup(init, team) || TeamOf(ps[|ps| - 1]) == team;
      Members(init, team) + (if TeamOf(ps[|ps| - 1]) == team then [ps[|ps| - 1]] else [])
  }

  /** Some participant belongs to group `team`. */
  predicate HasGroup(ps: seq<Participant>, team: string) {
    exists k :: 0 <= k < |ps| && TeamOf(ps[k]) == team
  }

  /** The group names in order of first appearance. */
  function Groups(ps: seq<Participant>): (r: seq<string>)
    ensures NoDuplicates(r)
    ensures forall t :: t in r <==> HasGroup(ps, t)
  {
    if ps == [] then []
    else
      var init := ps[..|ps| - 1];
      var team := TeamOf(ps[|ps| - 1]);
      var prev := Groups(init);
      assert forall k :: 0 <= k < |init| ==> init[k] == ps[k];
      assert forall t :: HasGroup(ps, t) <==> HasGroup(init, t) || team == t;
      if team in prev then prev else prev + [team]
  }

  /** `participantsByTeam`: the reduce that pushes every participant onto
      the array of its group, creating the array on first use. */
  method GroupByTeam(ps: seq<Participant>) returns (groups: map<string, seq<Participant>>)
    ensures forall t :: t in groups <==> HasGroup(ps, t)
    ensures forall t :: t in groups ==> groups[t] == Members(ps, t) && groups[t] != []
  {
    groups := map[];
    var i := 0;
    while i < |ps|
      invariant 0 <= i <= |ps|
      invariant Grouped(groups, ps[..i])
    {
      GroupInsert(ps, i, groups);
      groups := Pushed(groups, ps[i]);
      i := i + 1;
    }
    assert ps[..i] == ps;
  }

  /** `groups` holds exactly the non-empty groups of `s`, each in order. */
  ghost predicate Grouped(groups: map<string, seq<Participant>>, s: seq<Participant>) {
    (forall t :: t in groups <==> HasGroup(s, t)) &&
    (forall t :: t in groups ==> groups[t] == Members(s, t) && groups[t] != [])
  }

  /** `(acc[team] ||= []).push(p)` */
  function Pushed(groups: map<string, seq<Participant>>, p: Participant): map<string, seq<Participant>> {
    var team := TeamOf(p);
    groups[team := (if team in groups then groups[team] else []) + [p]]
  }

  /** Pushing the next participant onto its group keeps the grouping. */
  lemma GroupInsert(ps: seq<Participant>, i: nat, groups: map<string, seq<Participant>>)
    requires i < |ps| && Grouped(groups, ps[..i])
    ensures Grouped(Pushed(groups, ps[i]), ps[..i + 1])
  {
    GroupStep(ps, i);
    PushedKeys(ps, i, groups);
    PushedValues(ps, i, groups);
  }

  lemma PushedKeys(ps: seq<Participant>, i: nat, groups: map<string, seq<Participant>>)
    requires i < |ps| && (forall t :: t in groups <==> HasGroup(ps[..i], t))
    requires forall t :: HasGroup(ps[..i + 1], t) <==> HasGroup(ps[..i], t) || TeamOf(ps[i]) == t
    ensures forall t :: t in Pushed(groups, ps[i]) <==> HasGroup(ps[..i + 1], t)
  {
    var g := Pushed(groups, ps[i]);
    forall t
      ensures t in g <==> HasGroup(ps[..i + 1], t)
    {
      assert t in g <==> t in groups || t == TeamOf(ps[i]);
    }
  }

  lemma PushedValues(ps: seq<Participant>, i: nat, groups: map<string, seq<Participant>>)
    requires i < |ps| && forall t :: t in groups ==> groups[t] == Members(ps[..i], t)
    requires forall t :: t !in groups ==> Members(ps[..i], t) == []
    requires forall t :: Members(ps[..i + 1], t) == Members(ps[..i], t) + (if TeamOf(ps[i]) == t then [ps[i]] else [])
    ensures var g := Pushed(groups, ps[i]);
            forall t :: t in g ==> g[t] == Members(ps[..i + 1], t)
  {
    var team := TeamOf(ps[i]);
    var g := Pushed(groups, ps[i]);
    forall t | t in g
      ensures g[t] == Members(ps[..i + 1], t)
    {
      if t != team {
        assert g[t] == groups[t];
      }
    }
  }

  /** One more participant joins its own group and no other. */
  lemma GroupStep(ps: seq<Participant>, i: nat)
    requires i < |ps|
    ensures forall t :: Members(ps[..i + 1], t) == Members(ps[..i], t) + (if TeamOf(ps[i]) == t then [ps[i]] else [])
    ensures forall t :: HasGroup(ps[..i + 1], t) <==> HasGroup(ps[..i], t) || TeamOf(ps[i]) == t
  {
    assert ps[..i + 1][..i] == ps[..i];
    forall t
      ensures HasGroup(ps[..i + 1], t) <==> HasGroup(ps[..i], t) || TeamOf(ps[i]) == t
    {
      if HasGroup(ps[..i + 1], t) && TeamOf(ps[i]) != t {
        var k :| 0 <= k < i + 1 && TeamOf(ps[..i + 1][k]) == t;
        assert ps[..i][k] == ps[..i + 1][k];
      }
      if HasGroup(ps[..i], t) {
        var k :| 0 <= k < i && TeamOf(ps[..i][k]) == t;
        assert ps[..i + 1][k] == ps[..i][k];
      }
      if TeamOf(ps[i]) == t {
        assert ps[..i + 1][i] == ps[i];
      }
    }
  }

  /** The sizes of the named groups added up. */
  function GroupSizes(ps: seq<Participant>, teams: seq<string>): nat {
    if teams == [] then 0 else GroupSizes(ps, teams[..|teams| - 1]) + |Members(ps, teams[|teams| - 1])|
  }

  lemma {:induction false} GroupSizesStep(ps: seq<Participant>, p: Participant, teams: seq<string>)
    requires NoDuplicates(teams)
    ensures GroupSizes(ps + [p], teams) == GroupSizes(ps, teams) + (if TeamOf(p) in teams then 1 else 0)
  {
    assert (ps + [p])[..|ps|] == ps;
    if teams != [] {
      var init := teams[..|teams| - 1];
      assert forall i, j :: 0 <= i < j < |init| ==> init[i] == teams[i] && init[j] == teams[j];
      GroupSizesStep(ps, p, init);
      assert TeamOf(p) in teams <==> TeamOf(p) in init || TeamOf(p) == teams[|teams| - 1];
      if TeamOf(p) == teams[|teams| - 1] {
        assert TeamOf(p) !in init;
      }
    }
  }

  lemma GroupSizesAppend(ps: seq<Participant>, teams: seq<string>, t: string)
    ensures GroupSizes(ps, teams + [t]) == GroupSizes(ps, teams) + |Members(ps, t)|
  {
    assert (teams + [t])[..|teams|] == teams;
  }

  /** Every participant lands in exactly one group: each group holds only
      its own members, and the group sizes add up to the number of
      participants. */
  lemma {:induction false} GroupsPartition(ps: seq<Participant>)
    ensures GroupSizes(ps, Groups(ps)) == |ps|
    ensures forall k :: 0 <= k < |ps| ==> ps[k] in Members(ps, TeamOf(ps[k]))
  {
    if ps != [] {
      var init := ps[..|ps| - 1];
      var p := ps[|ps| - 1];
      assert init + [p] == ps;
      GroupsPartition(init);
      var prev := Groups(init);
      if TeamOf(p) in prev {
        GroupSizesStep(init, p, prev);
      } else {
        GroupSizesAppend(ps, prev, TeamOf(p));
        GroupSizesStep(init, p, prev);
      }
    }
  }

  /** The group members are `filter` over the participants: the grouping
      keeps input order within each group. */
  lemma {:induction false} MembersKeepOrder(ps: seq<Participant>, team: string)
    ensures Members(ps, team) == Filter(ps, (p: Participant) => TeamOf(p) == team)
  {
    if ps != [] {
      var init := ps[..|ps| - 1];
      var last := [ps[|ps| - 1]];
      assert init + last == ps;
      MembersKeepOrder(init, team);
      FilterAppend(init, last, (p: Participant) => TeamOf(p) == team);
      assert last[1..] == [];
    }
  }

  // -------------------------------------------------------------- team order

  /** The sort comparator of `teamNames`. */
  function TeamCompare(a: string, b: string): int {
    if a == Individuals then 1 else if b == Individuals then -1 else LocaleCompare(a, b)
  }

  /** The list without `x`. */
  function Without(s: seq<string>, x: string): (r: seq<string>)
    requires NoDuplicates(s)
    ensures NoDuplicates(r)
    ensures forall y :: y in r <==> y in s && y != x
  {
    if s == [] then []
    else
      assert forall k :: 0 < k < |s| ==> s[k] == s[1..][k - 1];
      assert s[0] !in s[1..];
      (if s[0] == x then [] else [s[0]]) + Without(s[1..], x)
  }

  /** `teamNames`: every group name, sorted by the comparator, so that the
      other teams come in ascending order and "Individual Participants"
      comes last. */
  function TeamNames(keys: seq<string>): (r: seq<string>)
    requires NoDuplicates(keys)
    ensures |r| == |keys|
    ensures forall t :: t in r <==> t in keys
    ensures Individuals in keys ==> r[|r| - 1] == Individuals
    ensures forall i, j :: 0 <= i < j < |r| ==> TeamCompare(r[i], r[j]) < 0
  {
    var named := SortDistinct(Without(keys, Individuals));
    NamedLength(keys);
    named + (if Individuals in keys then [Individuals] else [])
  }

  lemma NamedLength(keys: seq<string>)
    requires NoDuplicates(keys)
    ensures |Without(keys, Individuals)| == if Individuals in keys then |keys| - 1 else |keys|
  {
    if Individuals in keys {
      WithoutLength(keys, Individuals);
    } else {
      WithoutAbsent(keys, Individuals);
    }
  }

  /** Two duplicate-free lists with the same elements have the same
      length. */
  lemma {:induction false} DistinctLength(a: seq<string>, b: seq<string>)
    requires NoDuplicates(a) && NoDuplicates(b)
    requires forall y :: y in a <==> y in b
    ensures |a| == |b|
  {
    assert b != [] ==> b[0] in b;
    if a != [] {
      var x := a[0];
      assert x in b;
      var rest := Without(b, x);
      assert forall k :: 0 < k < |a| ==> a[k] == a[1..][k - 1];
      forall y
        ensures y in a[1..] <==> y in rest
      {
        if y in a[1..] {
          var k :| 0 <= k < |a[1..]| && a[1..][k] == y;
          assert a[k + 1] == y;
        }
        if y in a && y != x {
          var k :| 0 <= k < |a| && a[k] == y;
          assert k != 0;
          assert a[1..][k - 1] == y;
        }
      }
      assert NoDuplicates(a[1..]);
      DistinctLength(a[1..], rest);
      WithoutLength(b, x);
    }
  }

  lemma {:induction false} WithoutLength(s: seq<string>, x: string)
    requires NoDuplicates(s) && x in s
    ensures |Without(s, x)| == |s| - 1
  {
    if s[0] != x {
      assert x in s[1..];
      assert NoDuplicates(s[1..]);
      WithoutLength(s[1..], x);
    } else {
      assert forall k :: 0 < k < |s| ==> s[k] == s[1..][k - 1];
      assert x !in s[1..];
      WithoutAbsent(s[1..], x);
    }
  }

  lemma {:induction false} WithoutAbsent(s: seq<string>, x: string)
    requires NoDuplicates(s) && x !in s
    ensures Without(s, x) == s
  {
    if s != [] {
      assert NoDuplicates(s[1..]);
      WithoutAbsent(s[1..], x);
      assert s == [s[0]] + s[1..];
    }
  }

  /** The team order does not depend on the order of `Object.keys`. */
  lemma TeamNamesOrderFree(a: seq<string>, b: seq<string>)
    requires NoDuplicates(a) && NoDuplicates(b)
    requires forall t :: t in a <==> t in b
    ensures TeamNames(a) == TeamNames(b)
  {
    SortedUnique(SortDistinct(Without(a, Individuals)), SortDistinct(Without(b, Individuals)));
  }

  // --------------------------------------------------------- checked-in count

  /** `teamMembers.filter(m => m.checked_in).length` */
  function CheckedIn(ms: seq<Participant>): (n: nat)
    ensures n <= |ms|
    ensures n == |ms| <==> forall k :: 0 <= k < |ms| ==> ms[k].checkedIn
  {
    if ms == [] then 0
    else
      var init := ms[..|ms| - 1];
      assert forall k :: 0 <= k < |init| ==> init[k] == ms[k];
      CheckedIn(init) + (if ms[|ms| - 1].checkedIn then 1 else 0)
  }

  /** A team's checked-in count is at most its size and at most the
      checked-in count of the whole event. */
  lemma {:induction false} TeamCheckedInBounded(ps: seq<Participant>, team: string)
    ensures CheckedIn(Members(ps, team)) <= |Members(ps, team)|
    ensures CheckedIn(Members(ps, team)) <= CheckedIn(ps)
  {
    if ps != [] {
      var init := ps[..|ps| - 1];
      var p := ps[|ps| - 1];
      assert init + [p] == ps;
      TeamCheckedInBounded(init, team);
      CheckedInSnoc(init, p);
      var m := Members(init, team);
      if TeamOf(p) == team {
        assert Members(ps, team) == m + [p];
        CheckedInSnoc(m, p);
      } else {
        assert Members(ps, team) == m;
      }
    }
  }

  lemma CheckedInSnoc(ms: seq<Participant>, p: Participant)
    ensures CheckedIn(ms + [p]) == CheckedIn(ms) + (if p.checkedIn then 1 else 0)
  {
    assert (ms + [p])[..|ms|] == ms;
  }

  // ---------------------------------------------------------- expanded teams

  /** `toggleTeam` on a copy of the set. */
  function Toggled(s: set<string>, name: string): (r: set<string>)
    ensures name in r <==> name !in s
    ensures forall x :: x != name ==> (x in r <==> x in s)
  {
    if name in s then s - {name} else s + {name}
  }

  /** Toggling the same name twice restores the set. */
  lemma ToggleTwice(s: set<string>, name: string)
    ensures Toggled(Toggled(s, name), name) == s
  {
  }

  /** Toggles of two different names commute. */
  lemma ToggleCommutes(s: set<string>, a: string, b: string)
    ensures Toggled(Toggled(s, a), b) == Toggled(Toggled(s, b), a)
  {
  }

  /** The dashboard's expanded-team state. */
  class TeamPanel {
    var expanded: set<string>

    constructor()
      ensures expanded == {}
    {
      expanded := {};
    }

    /** `toggleTeam`: a new set is built from the old one with the name
        added or deleted, and replaces it. */
    method ToggleTeam(name: string)
      modifies this
      ensures expanded == Toggled(old(expanded), name)
    {
      var next := expanded;
      if name in next {
        next := next - {name};
      } else {
        next := next + {name};
      }
      expanded := next;
    }
  }

  // ------------------------------------------------------------------ winners

  /** One entry `{ position, name }` of the winners list. */
  function Entry(position: int, name: string): Json {
    JObj([Member("position", JNum(position)), Member("name", JStr(name))])
  }

  /** The position an entry carries, 0 when it has none. */
  function PositionOf(w: Json): int {
    match Get(w, "position")
    case Some(JNum(n)) => n
    case _ => 0
  }

  lemma EntryFields(position: int, name: string)
    ensures Get(Entry(position, name), "position") == Some(JNum(position))
    ensures Get(Entry(position, name), "name") == Some(JStr(name))
    ensures PositionOf(Entry(position, name)) == position
    ensures Winners.Complete(Entry(position, name)) <==> position != 0 && name != ""
  {
    LookupDistinct(Entry(position, name).members, 0);
    LookupDistinct(Entry(position, name).members, 1);
  }

  /** The list `saveWinners` sends: one entry per non-empty selection, for
      positions 1, 2 and 3 in that order. */
  function Payload(first: string, second: string, third: string): (r: seq<Json>)
    ensures |r| <= 3
    ensures Entry(1, first) in r <==> first != ""
    ensures Entry(2, second) in r <==> second != ""
    ensures Entry(3, third) in r <==> third != ""
    ensures forall k :: 0 <= k < |r| ==> r[k] in [Entry(1, first), Entry(2, second), Entry(3, third)]
    ensures forall i, j :: 0 <= i < j < |r| ==> PositionOf(r[i]) < PositionOf(r[j])
    ensures Winners.Validate(r) == Winners.AllComplete
  {
    var r := Slot(1, first) + Slot(2, second) + Slot(3, third);
    PayloadShape(first, second, third, r);
    r
  }

  /** The entry for one place, when it is chosen. */
  function Slot(position: int, name: string): seq<Json> {
    if name != "" then [Entry(position, name)] else []
  }

  lemma PayloadShape(first: string, second: string, third: string, r: seq<Json>)
    requires r == Slot(1, first) + Slot(2, second) + Slot(3, third)
    ensures |r| <= 3
    ensures Entry(1, first) in r <==> first != ""
    ensures Entry(2, second) in r <==> second != ""
    ensures Entry(3, third) in r <==> third != ""
    ensures forall k :: 0 <= k < |r| ==> r[k] in [Entry(1, first), Entry(2, second), Entry(3, third)]
    ensures forall i, j :: 0 <= i < j < |r| ==> PositionOf(r[i]) < PositionOf(r[j])
    ensures Winners.Validate(r) == Winners.AllComplete
  {
    PayloadMembers(first, second, third, r);
    PayloadOrdered(first, second, third, r);
    PayloadValid(first, second, third, r);
  }

  lemma PayloadMembers(first: string, second: string, third: string, r: seq<Json>)
    requires r == Slot(1, first) + Slot(2, second) + Slot(3, third)
    ensures Entry(1, first) in r <==> first != ""
    ensures Entry(2, second) in r <==> second != ""
    ensures Entry(3, third) in r <==> third != ""
    ensures forall k :: 0 <= k < |r| ==> r[k] in [Entry(1, first), Entry(2, second), Entry(3, third)]
  {
    EntryFields(1, first);
    EntryFields(2, second);
    EntryFields(3, third);
  }

  lemma PayloadOrdered(first: string, second: string, third: string, r: seq<Json>)
    requires r == Slot(1, first) + Slot(2, second) + Slot(3, third)
    ensures forall i, j :: 0 <= i < j < |r| ==> PositionOf(r[i]) < PositionOf(r[j])
  {
    EntryFields(1, first);
    EntryFields(2, second);
    EntryFields(3, third);
    OrderedJoin(Slot(1, first), Slot(2, second), 1, 2);
    OrderedJoin(Slot(1, first) + Slot(2, second), Slot(3, third), 2, 3);
  }

  /** Ordered lists whose positions are at most `p` and above `p`
      respectively join into an ordered list. */
  lemma OrderedJoin(a: seq<Json>, b: seq<Json>, p: int, q: int)
    requires forall i, j :: 0 <= i < j < |a| ==> PositionOf(a[i]) < PositionOf(a[j])
    requires forall i, j :: 0 <= i < j < |b| ==> PositionOf(b[i]) < PositionOf(b[j])
    requires forall i :: 0 <= i < |a| ==> PositionOf(a[i]) <= p
    requires p < q && forall j :: 0 <= j < |b| ==> PositionOf(b[j]) == q
    ensures forall i, j :: 0 <= i < j < |a + b| ==> PositionOf((a + b)[i]) < PositionOf((a + b)[j])
    ensures forall i :: 0 <= i < |a + b| ==> PositionOf((a + b)[i]) <= q
  {
    forall i, j | 0 <= i < j < |a + b|
      ensures PositionOf((a + b)[i]) < PositionOf((a + b)[j])
    {
      if j < |a| {
        assert (a + b)[i] == a[i] && (a + b)[j] == a[j];
      } else if i < |a| {
        assert (a + b)[i] == a[i] && (a + b)[j] == b[j - |a|];
      } else {
        assert (a + b)[i] == b[i - |a|] && (a + b)[j] == b[j - |a|];
      }
    }
  }

  lemma PayloadValid(first: string, second: string, third: string, r: seq<Json>)
    requires r == Slot(1, first) + Slot(2, second) + Slot(3, third)
    ensures Winners.Validate(r) == Winners.AllComplete
  {
    EntryFields(1, first);
    EntryFields(2, second);
    EntryFields(3, third);
    SlotsValid(Slot(1, first) + Slot(2, second), Slot(3, third));
    SlotsValid(Slot(1, first), Slot(2, second));
  }

  /** Two lists of complete entries joined are complete. */
  lemma SlotsValid(a: seq<Json>, b: seq<Json>)
    requires Winners.Validate(a) == Winners.AllComplete && Winners.Validate(b) == Winners.AllComplete
    ensures Winners.Validate(a + b) == Winners.AllComplete
  {
    assert forall k :: 0 <= k < |a + b| ==> (a + b)[k] == if k < |a| then a[k] else b[k - |a|];
  }

  /** `winnersData`, built by pushing. */
  method SaveWinnersPayload(first: string, second: string, third: string) returns (data: seq<Json>)
    ensures data == Payload(first, second, third)
  {
    data := [];
    if first != "" {
      data := data + [Entry(1, first)];
    }
    assert data == Slot(1, first);
    if second != "" {
      data := data + [Entry(2, second)];
    }
    assert data == Slot(1, first) + Slot(2, second);
    if third != "" {
      data := data + [Entry(3, third)];
    }
    assert data == Slot(1, first) + Slot(2, second) + Slot(3, third);
  }

  /** The request body `{ event_id, winners }`. */
  function WinnersBody(eventId: string, data: seq<Json>): Json {
    JObj([Member("event_id", JStr(eventId)), Member("winners", JArr(data))])
  }

  /** The page's list always passes the route's checks: under any event id
      it is saved when the event is found and refused with 404 otherwise,
      never with 400.  The id the page actually sends is
      `statsData.event.$id || 'unknown'`; the dashboard reply has no `$id`
      (and the page's dashboard request carries no `x-event-id`, so it is
      refused), so whenever the page posts at all it posts "unknown". */
  lemma PayloadAccepted(events: seq<Entities.Event>, eventId: string, first: string, second: string,
                        third: string, writeOk: bool)
    requires eventId != ""
    ensures var o := Winners.Save(events, Some(WinnersBody(eventId, Payload(first, second, third))), writeOk);
            o.reply.status == (if Entities.EventByBusinessId(events, eventId).Some? then 200 else 404) &&
            (o.reply.status == 200 ==> o.winners == Payload(first, second, third))
  {
    SaveAccepts(events, eventId, Payload(first, second, third), writeOk);
    PayloadKept(Payload(first, second, third), first, second, third);
  }

  /** The page's list is stored exactly as the page builds it. */
  lemma PayloadKept(data: seq<Json>, first: string, second: string, third: string)
    requires forall k :: 0 <= k < |data| ==> data[k] in [Entry(1, first), Entry(2, second), Entry(3, third)]
    ensures JsObject.Canonical(JArr(data)).items == data
  {
    forall k | 0 <= k < |data|
      ensures JsObject.Canonical(data[k]) == data[k]
    {
      if data[k] == Entry(1, first) {
        EntryKept(1, first);
      } else if data[k] == Entry(2, second) {
        EntryKept(2, second);
      } else {
        EntryKept(3, third);
      }
    }
    JsObject.KeptItems(data);
  }

  /** An entry is sent and stored exactly as the page builds it. */
  lemma EntryKept(position: int, name: string)
    ensures JsObject.Canonical(Entry(position, name)) == Entry(position, name)
  {
    var ms := Entry(position, name).members;
    JsObject.NotIndexKey("position");
    JsObject.NotIndexKey("name");
    assert JsObject.BuiltAsWritten(ms);
    JsObject.KeptAsWritten(ms);
  }

  lemma SaveAccepts(events: seq<Entities.Event>, eventId: string, data: seq<Json>, writeOk: bool)
    requires eventId != "" && Winners.Validate(data) == Winners.AllComplete
    ensures var o := Winners.Save(events, Some(WinnersBody(eventId, data)), writeOk);
            o.reply.status == (if Entities.EventByBusinessId(events, eventId).Some? then 200 else 404) &&
            (o.reply.status == 200 ==> o.winners == JsObject.Canonical(JArr(data)).items)
  {
    var body := WinnersBody(eventId, data);
    LookupDistinct(body.members, 0);
    LookupDistinct(body.members, 1);
    assert Get(body, "event_id") == Some(JStr(eventId));
    assert Get(body, "winners") == Some(JArr(data));
    assert TruthyOpt(Get(body, "event_id")) && TruthyOpt(Get(body, "winners"));
  }
}
