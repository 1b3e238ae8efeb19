/** The main coordinator's overview of all events
    (app/coordinator/overview/page.tsx): the overall totals, the search
    filter and the sort over the event rows the all-events route returns,
    the per-event participant cache, and the expanded-team set keyed by
    event and team.  Participants of an event are grouped exactly as on
    the event coordinator's page. */
module OverviewPage {
  import opened Common
  import opened Ordering
  import opened AllEvents
  import CoordinatorPage

  // ------------------------------------------------------------------ totals

  /** `events.reduce((sum, e) => sum + f(e), 0)` */
  function Sum(es: seq<EventRow>, f: EventRow -> int): int {
    if es == [] then 0 else Sum(es[..|es| - 1], f) + f(es[|es| - 1])
  }

  lemma {:induction false} SumAppend(a: seq<EventRow>, b: seq<EventRow>, f: EventRow -> int)
    ensures Sum(a + b, f) == Sum(a, f) + Sum(b, f)
  {
    if b != [] {
      assert (a + b)[..|a + b| - 1] == a + b[..|b| - 1];
      SumAppend(a, b[..|b| - 1], f);
    } else {
      assert a + b == a;
    }
  }

  datatype Totals = Totals(totalEvents: nat, activeEvents: nat, totalRegistrations: int,
                           totalParticipants: int, totalCheckedIn: int)

  /** The overall stats of the page header. */
  function OverallTotals(es: seq<EventRow>): (t: Totals)
    ensures t.activeEvents <= t.totalEvents == |es|
    ensures t.activeEvents == 0 <==> forall k :: 0 <= k < |es| ==> es[k].completed
    ensures t.totalRegistrations >= 0 && t.totalParticipants >= 0 && t.totalCheckedIn >= 0
  {
    NonNegativeSum(es, (e: EventRow) => e.totalRegistrations as int);
    NonNegativeSum(es, (e: EventRow) => e.totalParticipants as int);
    NonNegativeSum(es, (e: EventRow) => e.checkedIn as int);
    Totals(|es|, Count(es, (e: EventRow) => !e.completed),
           Sum(es, (e: EventRow) => e.totalRegistrations as int),
           Sum(es, (e: EventRow) => e.totalParticipants as int),
           Sum(es, (e: EventRow) => e.checkedIn as int))
  }

  lemma {:induction false} NonNegativeSum(es: seq<EventRow>, f: EventRow -> int)
    requires forall e :: f(e) >= 0
    ensures Sum(es, f) >= 0
  {
    if es != [] {
      NonNegativeSum(es[..|es| - 1], f);
    }
  }

  /** The totals are per-event sums: the totals of two lists joined are the
      totals of each added up. */
  lemma TotalsAdd(a: seq<EventRow>, b: seq<EventRow>)
    ensures var ta, tb, t := OverallTotals(a), OverallTotals(b), OverallTotals(a + b);
            t == Totals(ta.totalEvents + tb.totalEvents, ta.activeEvents + tb.activeEvents,
                        ta.totalRegistrations + tb.totalRegistrations,
                        ta.totalParticipants + tb.totalParticipants, ta.totalCheckedIn + tb.totalCheckedIn)
  {
    CountAppend(a, b, (e: EventRow) => !e.completed);
    SumAppend(a, b, (e: EventRow) => e.totalRegistrations as int);
    SumAppend(a, b, (e: EventRow) => e.totalParticipants as int);
    SumAppend(a, b, (e: EventRow) => e.checkedIn as int);
  }

  /** On the route's rows, participants minus checked-in over all events is
      the sum of the per-event not-checked-in counts. */
  lemma {:induction false} PendingIsSumOfEvents(es: seq<EventRow>)
    requires forall k :: 0 <= k < |es| ==> es[k].notCheckedIn == es[k].totalParticipants - es[k].checkedIn
    ensures OverallTotals(es).totalParticipants - OverallTotals(es).totalCheckedIn == Sum(es, (e: EventRow) => e.notCheckedIn)
  {
    if es != [] {
      var init := es[..|es| - 1];
      assert forall k :: 0 <= k < |init| ==> init[k] == es[k];
      PendingIsSumOfEvents(init);
    }
  }

  // ------------------------------------------------------------------ search

  /** The search test: the lower-cased query occurs in the lower-cased
      name, category or venue. */
  predicate Matches(e: EventRow, query: string) {
    var q := Lower(query);
    Includes(Lower(e.name), q) || Includes(Lower(e.category), q) || Includes(Lower(e.venue), q)
  }

  /** `filteredEvents` */
  function Filtered(es: seq<EventRow>, query: string): (r: seq<EventRow>)
    ensures |r| <= |es|
    ensures forall k :: 0 <= k < |r| ==> Matches(r[k], query) && r[k] in es
    ensures forall k :: 0 <= k < |es| && Matches(es[k], query) ==> es[k] in r
    ensures Subsequence(r, es)
  {
    FilterSubsequence(es, (e: EventRow) => Matches(e, query));
    Filter(es, (e: EventRow) => Matches(e, query))
  }

  /** `a` is `b` with some elements left out, the rest in order. */
  predicate Subsequence<T(==)>(a: seq<T>, b: seq<T>) {
    a == [] || (b != [] && if a[0] == b[0] then Subsequence(a[1..], b[1..]) else Subsequence(a, b[1..]))
  }

  lemma {:induction false} FilterSubsequence<T>(s: seq<T>, p: T -> bool)
    ensures Subsequence(Filter(s, p), s)
  {
    if s != [] {
      FilterSubsequence(s[1..], p);
      if p(s[0]) {
        assert Filter(s, p)[1..] == Filter(s[1..], p);
      } else {
        assert Filter(s, p) == Filter(s[1..], p);
        SubsequenceOfTail(Filter(s[1..], p), s);
      }
    }
  }

  /** A subsequence of the tail is a subsequence of the whole. */
  lemma {:induction false} SubsequenceOfTail<T>(a: seq<T>, s: seq<T>)
    requires s != [] && Subsequence(a, s[1..])
    ensures Subsequence(a, s)
    decreases |s|, 0
  {
    if a != [] && a[0] == s[0] {
      SubsequenceDrop(a, s[1..]);
    }
  }

  /** Dropping the head of a subsequence keeps it a subsequence. */
  lemma {:induction false} SubsequenceDrop<T>(a: seq<T>, s: seq<T>)
    requires a != [] && Subsequence(a, s)
    ensures Subsequence(a[1..], s)
    decreases |s|, 1
  {
    if a[0] == s[0] {
      if a[1..] != [] {
        SubsequenceOfTail(a[1..], s);
      }
    } else {
      SubsequenceDrop(a, s[1..]);
      if a[1..] != [] {
        SubsequenceOfTail(a[1..], s);
      }
    }
  }

  /** `"".includes` holds for every string, so an empty search keeps every
      event. */
  lemma EmptyQueryKeepsAll(es: seq<EventRow>)
    ensures Filtered(es, "") == es
  {
    forall e: EventRow
      ensures Matches(e, "")
    {
      assert Lower("") == "";
      assert StartsWith(Lower(e.name), "");
    }
    FilterKeepsAll(es, (e: EventRow) => Matches(e, ""));
  }

  /** The search ignores the case of the query. */
  lemma SearchIgnoresCase(es: seq<EventRow>, query: string)
    ensures Filtered(es, query) == Filtered(es, Lower(query))
  {
    assert Lower(Lower(query)) == Lower(query);
    FilterSame(es, (e: EventRow) => Matches(e, query), (e: EventRow) => Matches(e, Lower(query)));
  }

  lemma {:induction false} FilterSame<T>(s: seq<T>, p: T -> bool, q: T -> bool)
    requires forall x :: p(x) == q(x)
    ensures Filter(s, p) == Filter(s, q)
  {
    if s != [] {
      FilterSame(s[1..], p, q);
    }
  }

  // -------------------------------------------------------------------- sort

  datatype SortBy = ByName | ByCategory | ByDate | ByRegistrations | BySlots
  datatype Direction = Ascending | Descending

  /** `compareValue` for the chosen field. */
  function CompareValue(a: EventRow, b: EventRow, field: SortBy): int {
    match field
    case ByName => LocaleCompare(a.name, b.name)
    case ByCategory => LocaleCompare(a.category, b.category)
    case ByDate => LocaleCompare(a.date, b.date)
    case ByRegistrations => a.totalRegistrations - b.totalRegistrations
    case BySlots => a.remainingSlots - b.remainingSlots
  }

  /** The comparator passed to `sort`: descending negates the ascending
      value. */
  function Comparator(a: EventRow, b: EventRow, field: SortBy, dir: Direction): int {
    if dir == Ascending then CompareValue(a, b, field) else -CompareValue(a, b, field)
  }

  lemma ComparatorAntisymmetric(a: EventRow, b: EventRow, field: SortBy, dir: Direction)
    ensures Comparator(a, b, field, dir) == -Comparator(b, a, field, dir)
  {
  }

  lemma ComparatorTransitive(a: EventRow, b: EventRow, c: EventRow, field: SortBy, dir: Direction)
    requires Comparator(a, b, field, dir) <= 0 && Comparator(b, c, field, dir) <= 0
    ensures Comparator(a, c, field, dir) <= 0
  {
    match field
    case ByName =>
      if a.name != b.name && b.name != c.name {
        if dir == Ascending { LessTransitive(a.name, b.name, c.name); } else { LessTransitive(c.name, b.name, a.name); }
      }
    case ByCategory =>
      if a.category != b.category && b.category != c.category {
        if dir == Ascending { LessTransitive(a.category, b.category, c.category); }
        else { LessTransitive(c.category, b.category, a.category); }
      }
    case ByDate =>
      if a.date != b.date && b.date != c.date {
        if dir == Ascending { LessTransitive(a.date, b.date, c.date); } else { LessTransitive(c.date, b.date, a.date); }
      }
    case ByRegistrations =>
    case BySlots =>
  }

  /** Every event sorts no later than every later one. */
  predicate Sorted(s: seq<EventRow>, field: SortBy, dir: Direction) {
    forall i, j :: 0 <= i < j < |s| ==> Comparator(s[i], s[j], field, dir) <= 0
  }

  function Insert(x: EventRow, s: seq<EventRow>, field: SortBy, dir: Direction): (r: seq<EventRow>)
    requires Sorted(s, field, dir)
    ensures multiset(r) == multiset(s) + multiset{x}
    ensures Sorted(r, field, dir)
  {
    if s == [] then [x]
    else if Comparator(x, s[0], field, dir) <= 0 then
      forall j | 0 < j < |s|
        ensures Comparator(x, s[j], field, dir) <= 0
      {
        ComparatorTransitive(x, s[0], s[j], field, dir);
      }
      [x] + s
    else
      ComparatorAntisymmetric(x, s[0], field, dir);
      var rest := Insert(x, s[1..], field, dir);
      assert s == [s[0]] + s[1..];
      HeadBeforeAll(s[0], x, s[1..], rest, field, dir);
      [s[0]] + rest
  }

  /** An event that sorts no later than `x` and than every event of a sorted
      list stays first when `x` is inserted into that list. */
  lemma HeadBeforeAll(h: EventRow, x: EventRow, tail: seq<EventRow>, rest: seq<EventRow>, field: SortBy, dir: Direction)
    requires Sorted([h] + tail, field, dir) && Sorted(rest, field, dir)
    requires Comparator(h, x, field, dir) <= 0
    requires multiset(rest) == multiset(tail) + multiset{x}
    ensures Sorted([h] + rest, field, dir)
  {
    forall j | 0 <= j < |rest|
      ensures Comparator(h, rest[j], field, dir) <= 0
    {
      assert rest[j] in multiset(rest);
      if rest[j] != x {
        assert rest[j] in multiset(tail);
        var k :| 0 <= k < |tail| && tail[k] == rest[j];
        var ht := [h] + tail;
        assert ht[0] == h && ht[k + 1] == tail[k];
        assert Comparator(ht[0], ht[k + 1], field, dir) <= 0;
      }
    }
    var r := [h] + rest;
    forall i, j | 0 <= i < j < |r|
      ensures Comparator(r[i], r[j], field, dir) <= 0
    {
      assert r[j] == rest[j - 1];
      if i > 0 {
        assert r[i] == rest[i - 1];
        assert Comparator(rest[i - 1], rest[j - 1], field, dir) <= 0;
      } else {
        assert r[i] == h;
        assert Comparator(h, rest[j - 1], field, dir) <= 0;
      }
    }
  }

  /** `[...filteredEvents].sort(comparator)`: a sorted rearrangement of a
      copy, leaving the filtered list itself as it was. */
  function SortedEvents(s: seq<EventRow>, field: SortBy, dir: Direction): (r: seq<EventRow>)
    ensures multiset(r) == multiset(s)
    ensures |r| == |s|
    ensures Sorted(r, field, dir)
  {
    if s == [] then []
    else
      assert s == [s[0]] + s[1..];
      Insert(s[0], SortedEvents(s[1..], field, dir), field, dir)
  }

  /** The events that compare equal to `e` on the sort field.  Equality does
      not depend on the direction, since descending only negates. */
  function TiesWith(e: EventRow, field: SortBy): EventRow -> bool {
    (y: EventRow) => CompareValue(y, e, field) == 0
  }

  /** Inserting `x` passes over only events that sort strictly before it,
      none of which ties with it, so every class of tied events keeps the
      order it has in `[x] + s`. */
  lemma {:induction false} InsertKeepsTieOrder(x: EventRow, s: seq<EventRow>, field: SortBy, dir: Direction, e: EventRow)
    requires Sorted(s, field, dir)
    ensures Filter(Insert(x, s, field, dir), TiesWith(e, field)) == Filter([x] + s, TiesWith(e, field))
  {
    if s == [] || Comparator(x, s[0], field, dir) <= 0 {
      InsertInFront(x, s, field, dir);
    } else {
      var tail := s[1..];
      SortedTail(s, field, dir);
      InsertPassesOver(x, s, field, dir);
      InsertKeepsTieOrder(x, tail, field, dir, e);
      NotBothTied(x, s[0], e, field, dir);
      FilterPastHead(x, s, Insert(x, tail, field, dir), TiesWith(e, field));
    }
  }

  /** An event that sorts no later than the head goes in front. */
  lemma InsertInFront(x: EventRow, s: seq<EventRow>, field: SortBy, dir: Direction)
    requires Sorted(s, field, dir) && (s == [] || Comparator(x, s[0], field, dir) <= 0)
    ensures Insert(x, s, field, dir) == [x] + s
  {
  }

  lemma SortedTail(s: seq<EventRow>, field: SortBy, dir: Direction)
    requires Sorted(s, field, dir) && s != []
    ensures Sorted(s[1..], field, dir)
  {
  }

  /** Putting the head of `s` in front of a list that filters like `x`
      followed by the tail of `s` gives a list that filters like `[x] + s`,
      when the filter keeps at most one of `x` and that head. */
  lemma FilterPastHead<T>(x: T, s: seq<T>, inserted: seq<T>, p: T -> bool)
    requires s != []
    requires Filter(inserted, p) == Filter([x] + s[1..], p)
    requires !(p(x) && p(s[0]))
    ensures Filter([s[0]] + inserted, p) == Filter([x] + s, p)
  {
    var h, tail := s[0], s[1..];
    assert s == [h] + tail;
    FilterCons(h, inserted, p);
    FilterCons(x, tail, p);
    FilterCons(x, s, p);
    FilterCons(h, tail, p);
    SwapAroundEmpty(if p(h) then [h] else [], if p(x) then [x] else [], Filter(tail, p));
  }

  /** An event that sorts strictly after the head of a sorted list is
      inserted into its tail. */
  lemma InsertPassesOver(x: EventRow, s: seq<EventRow>, field: SortBy, dir: Direction)
    requires Sorted(s, field, dir) && s != [] && Comparator(x, s[0], field, dir) > 0
    ensures Insert(x, s, field, dir) == [s[0]] + Insert(x, s[1..], field, dir)
  {
  }

  /** Events that sort strictly apart are not both tied with `e`. */
  lemma NotBothTied(x: EventRow, y: EventRow, e: EventRow, field: SortBy, dir: Direction)
    requires Comparator(x, y, field, dir) > 0
    ensures !(TiesWith(e, field)(x) && TiesWith(e, field)(y))
  {
    if TiesWith(e, field)(x) && TiesWith(e, field)(y) {
      TiesAreShared(x, y, e, field);
    }
  }

  lemma FilterCons<T>(a: T, t: seq<T>, p: T -> bool)
    ensures Filter([a] + t, p) == (if p(a) then [a] else []) + Filter(t, p)
  {
    assert ([a] + t)[1..] == t;
  }

  /** Two pieces one of which is empty can change places. */
  lemma SwapAroundEmpty<T>(u: seq<T>, v: seq<T>, r: seq<T>)
    requires u == [] || v == []
    ensures u + (v + r) == v + (u + r)
  {
    if u == [] {
      assert u + (v + r) == v + r == v + (u + r);
    } else {
      assert u + (v + r) == u + r == v + (u + r);
    }
  }

  /** Two events tied with a third are tied with each other. */
  lemma TiesAreShared(a: EventRow, b: EventRow, e: EventRow, field: SortBy)
    requires CompareValue(a, e, field) == 0 && CompareValue(b, e, field) == 0
    ensures CompareValue(a, b, field) == 0
  {
  }

  /** `Array.prototype.sort` is stable: events that compare equal keep the
      order they have in the filtered list, for example two events with the
      same number of registrations. */
  lemma {:induction false} SortedEventsStable(s: seq<EventRow>, field: SortBy, dir: Direction, e: EventRow)
    ensures Filter(SortedEvents(s, field, dir), TiesWith(e, field)) == Filter(s, TiesWith(e, field))
  {
    if s != [] {
      var p := TiesWith(e, field);
      var tail := s[1..];
      var sortedTail := SortedEvents(tail, field, dir);
      assert s == [s[0]] + tail;
      assert SortedEvents(s, field, dir) == Insert(s[0], sortedTail, field, dir);
      InsertKeepsTieOrder(s[0], sortedTail, field, dir, e);
      FilterCons(s[0], sortedTail, p);
      SortedEventsStable(tail, field, dir, e);
      FilterCons(s[0], tail, p);
    }
  }

  /** Descending order is ascending order read backwards. */
  lemma DescendingIsReversedAscending(s: seq<EventRow>, field: SortBy)
    ensures Sorted(s, field, Descending) <==> Sorted(Reverse(s), field, Ascending)
  {
    var r := Reverse(s);
    if Sorted(s, field, Descending) {
      forall i, j | 0 <= i < j < |r|
        ensures Comparator(r[i], r[j], field, Ascending) <= 0
      {
        assert Comparator(s[|s| - 1 - j], s[|s| - 1 - i], field, Descending) <= 0;
      }
    }
    if Sorted(r, field, Ascending) {
      forall i, j | 0 <= i < j < |s|
        ensures Comparator(s[i], s[j], field, Descending) <= 0
      {
        assert Comparator(r[|s| - 1 - j], r[|s| - 1 - i], field, Ascending) <= 0;
      }
    }
  }

  // ------------------------------------------------------- participant cache

  /** The page state the participant list and the team toggles touch. */
  datatype View = View(participants: map<string, seq<CoordinatorPage.Participant>>,
                       expandedEvent: Option<string>, loadingParticipants: Option<string>,
                       expandedTeams: set<string>)

  /** `fetchEventParticipants(eventId)`: a cached event only toggles its
      expansion; otherwise the route is asked (`response` is the participant
      list of a successful reply, `None` for a failure), a success is cached
      and expanded, and loading ends.  The flag says whether a request was
      made. */
  function Fetch(v: View, eventId: string, response: Option<seq<CoordinatorPage.Participant>>): (r: (View, bool))
    ensures r.0.expandedTeams == v.expandedTeams
    ensures r.1 <==> eventId !in v.participants
  {
    if eventId in v.participants then
      (v.(expandedEvent := if v.expandedEvent == Some(eventId) then None else Some(eventId)), false)
    else match response
      case Some(list) =>
        (v.(participants := v.participants[eventId := list], expandedEvent := Some(eventId), loadingParticipants := None), true)
      case None => (v.(loadingParticipants := None), true)
  }

  /** For a cached event no request is made and only the expansion flips;
      for an uncached one a successful reply is cached and shown. */
  lemma CachedOnlyToggles(v: View, eventId: string, response: Option<seq<CoordinatorPage.Participant>>)
    ensures var (w, fetched) := Fetch(v, eventId, response);
            (eventId in v.participants ==>
               !fetched && w.participants == v.participants && w.loadingParticipants == v.loadingParticipants &&
               (w.expandedEvent == Some(eventId) <==> v.expandedEvent != Some(eventId)) &&
               (w.expandedEvent.Some? ==> w.expandedEvent == Some(eventId))) &&
            (eventId !in v.participants && response.Some? ==>
               fetched && w.participants[eventId] == response.value && w.expandedEvent == Some(eventId)) &&
            (eventId !in v.participants && response.None? ==>
               fetched && w.participants == v.participants && w.expandedEvent == v.expandedEvent)
  {
  }

  /** Opening an event and clicking it again closes it without a second
      request. */
  lemma SecondClickCollapses(v: View, eventId: string, list: seq<CoordinatorPage.Participant>,
                             again: Option<seq<CoordinatorPage.Participant>>)
    requires eventId !in v.participants
    ensures var w := Fetch(v, eventId, Some(list)).0;
            Fetch(w, eventId, again) == (w.(expandedEvent := None), false)
  {
  }

  /** The key of a team's toggle, `${event.$id}-${teamName}`. */
  function TeamKey(eventId: string, team: string): string {
    eventId + "-" + team
  }

  /** With event ids free of '-', as generated ids are, different events or
      teams never share a key, so a toggle in one event leaves the same team
      name in another event as it was. */
  lemma TeamKeysDistinct(id1: string, t1: string, id2: string, t2: string)
    requires '-' !in id1 && '-' !in id2
    requires id1 != id2 || t1 != t2
    ensures TeamKey(id1, t1) != TeamKey(id2, t2)
  {
    var k1, k2 := TeamKey(id1, t1), TeamKey(id2, t2);
    if |id1| < |id2| {
      assert k1[|id1|] == '-' && k2[|id1|] == id2[|id1|];
      assert id2[|id1|] in id2;
    } else if |id2| < |id1| {
      assert k2[|id2|] == '-' && k1[|id2|] == id1[|id2|];
      assert id1[|id2|] in id1;
    } else if id1 != id2 {
      assert k1[..|id1|] == id1 && k2[..|id2|] == id2;
    } else {
      assert k1[|id1| + 1..] == t1 && k2[|id2| + 1..] == t2;
    }
  }

  /** An id with a '-' can make two keys collide. */
  lemma TeamKeysCanCollide()
    ensures TeamKey("a-b", "c") == TeamKey("a", "b-c")
  {
  }

  /** Toggling one event's team leaves every other event's teams as they
      were. */
  lemma ToggleIsPerEvent(s: set<string>, id1: string, t1: string, id2: string, t2: string)
    requires '-' !in id1 && '-' !in id2 && id1 != id2
    ensures TeamKey(id2, t2) in CoordinatorPage.Toggled(s, TeamKey(id1, t1)) <==> TeamKey(id2, t2) in s
  {
    TeamKeysDistinct(id1, t1, id2, t2);
  }

  /** The overview's state. */
  class Overview {
    var participants: map<string, seq<CoordinatorPage.Participant>>
    var expandedEvent: Option<string>
    var loadingParticipants: Option<string>
    var expandedTeams: set<string>

    constructor()
      ensures participants == map[] && expandedEvent == None && loadingParticipants == None && expandedTeams == {}
    {
      participants := map[];
      expandedEvent := None;
      loadingParticipants := None;
      expandedTeams := {};
    }

    function State(): View
      reads this
    {
      View(participants, expandedEvent, loadingParticipants, expandedTeams)
    }

    /** `fetchEventParticipants`, with the reply of the participants route
        as a parameter. */
    method FetchEventParticipants(eventId: string, response: Option<seq<CoordinatorPage.Participant>>)
      returns (fetched: bool)
      modifies this
      ensures (State(), fetched) == Fetch(old(State()), eventId, response)
    {
      if eventId in participants {
        expandedEvent := if expandedEvent == Some(eventId) then None else Some(eventId);
        return false;
      }
      loadingParticipants := Some(eventId);
      if response.Some? {
        participants := participants[eventId := response.value];
        expandedEvent := Some(eventId);
      }
      loadingParticipants := None;
      return true;
    }

    /** `toggleTeam(teamKey)` */
    method ToggleTeam(teamKey: string)
      modifies this
      ensures expandedTeams == CoordinatorPage.Toggled(old(expandedTeams), teamKey)
      ensures participants == old(participants) && expandedEvent == old(expandedEvent)
      ensures loadingParticipants == old(loadingParticipants)
    {
      var next := expandedTeams;
      if teamKey in next {
        next := next - {teamKey};
      } else {
        next := next + {teamKey};
      }
      expandedTeams := next;
    }
  }
}
