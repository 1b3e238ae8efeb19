/** The participant list of one event for its coordinator
    (app/api/coordinator/participants/route.ts): one row per member of every
    ticket of the event, with the ticket's team name, the member's name and
    whether an attendance record exists for the member.  The event is named
    by its document id in the `x-event-id` header. */
module Participants {
  import opened Common
  import opened Entities

  const Failure := Reply(500, false, "Failed to load participants list")

  /** The member ids a `for..of` over `ticket.stud_id ?? []` visits: a list
      gives its ids, and a scalar string gives its characters, one id each. */
  function Visited(f: StudField): (r: seq<string>)
    ensures f.NoStud? ==> r == []
    ensures f.StudList? ==> r == f.ids
    ensures f.OneStud? ==> |r| == |f.id| && forall k :: 0 <= k < |r| ==> r[k] == [f.id[k]]
  {
    match f
    case NoStud => []
    case OneStud(id) => seq(|id|, k requires 0 <= k < |id| => [id[k]])
    case StudList(ids) => ids
  }

  /** The member ids of all tickets, ticket by ticket, in visiting order. */
  function AllVisited(tickets: seq<Ticket>): seq<string> {
    if tickets == [] then []
    else AllVisited(tickets[..|tickets| - 1]) + Visited(tickets[|tickets| - 1].studId)
  }

  /** `studentIds`, the set the handler queries the users with. */
  function IdSet(ids: seq<string>): set<string> {
    set x | x in ids
  }

  /** The users returned by `Query.equal("$id", ...)` on the id set. */
  function Queried(users: seq<User>, ids: set<string>): (r: seq<User>)
    ensures forall k :: 0 <= k < |r| ==> r[k].id in ids && r[k] in users
  {
    Filter(users, (u: User) => u.id in ids)
  }

  /** The id set is empty exactly when no member id was visited. */
  lemma NoIdsNoMembers(ids: seq<string>)
    ensures IdSet(ids) == {} <==> ids == []
  {
    if ids != [] {
      assert ids[0] in IdSet(ids);
    }
  }

  /** `userMap`: user id to the (possibly missing) name; a later user with
      the same id replaces an earlier one. */
  function NameMap(users: seq<User>): (m: map<string, Option<string>>)
    ensures forall x :: x in m <==> exists k :: 0 <= k < |users| && users[k].id == x
    ensures forall x :: x in m ==> exists k :: 0 <= k < |users| && users[k].id == x && m[x] == users[k].name
  {
    if users == [] then map[]
    else
      var prefix := users[..|users| - 1];
      var last := users[|users| - 1];
      assert forall k :: 0 <= k < |prefix| ==> prefix[k] == users[k];
      NameMap(prefix)[last.id := last.name]
  }

  /** `userMap.get(studId) ?? "Unknown"` */
  function StudentName(names: map<string, Option<string>>, id: string): string {
    if id in names && names[id].Some? then names[id].value else "Unknown"
  }

  datatype Row = Row(teamName: Option<string>, studentName: string, checkedIn: bool)

  /** The rows one ticket contributes, one per visited member id. */
  function TicketRows(teamName: Option<string>, ids: seq<string>, checked: set<string>,
                      names: map<string, Option<string>>): seq<Row> {
    seq(|ids|, k requires 0 <= k < |ids| => Row(teamName, StudentName(names, ids[k]), ids[k] in checked))
  }

  /** The participant list of the given tickets. */
  function Rows(tickets: seq<Ticket>, checked: set<string>, names: map<string, Option<string>>): seq<Row> {
    if tickets == [] then []
    else
      var last := tickets[|tickets| - 1];
      Rows(tickets[..|tickets| - 1], checked, names) + TicketRows(last.teamName, Visited(last.studId), checked, names)
  }

  /** The `checkedInSet` loop. */
  method CollectCheckedIn(records: seq<Attendance>) returns (checked: set<string>)
    ensures checked == CheckedInIds(records)
  {
    checked := {};
    var k := 0;
    while k < |records|
      invariant 0 <= k <= |records|
      invariant checked == CheckedInIds(records[..k])
    {
      assert records[..k + 1][..k] == records[..k];
      checked := checked + {records[k].studId};
      k := k + 1;
    }
    assert records[..k] == records;
  }

  /** The `studentIds` loop. */
  method CollectIds(tickets: seq<Ticket>) returns (ids: set<string>)
    ensures ids == IdSet(AllVisited(tickets))
  {
    ids := {};
    var i := 0;
    while i < |tickets|
      invariant 0 <= i <= |tickets|
      invariant ids == IdSet(AllVisited(tickets[..i]))
    {
      assert tickets[..i + 1][..i] == tickets[..i];
      var visited := Visited(tickets[i].studId);
      assert AllVisited(tickets[..i + 1]) == AllVisited(tickets[..i]) + visited;
      ids := ids + IdSet(visited);
      i := i + 1;
    }
    assert tickets[..i] == tickets;
  }

  /** The `userMap` loop. */
  method CollectNames(users: seq<User>) returns (names: map<string, Option<string>>)
    ensures names == NameMap(users)
  {
    names := map[];
    var k := 0;
    while k < |users|
      invariant 0 <= k <= |users|
      invariant names == NameMap(users[..k])
    {
      assert users[..k + 1][..k] == users[..k];
      names := names[users[k].id := users[k].name];
      k := k + 1;
    }
    assert users[..k] == users;
  }

  /** The nested loop that pushes the rows. */
  method BuildRows(tickets: seq<Ticket>, checked: set<string>, names: map<string, Option<string>>)
    returns (rows: seq<Row>)
    ensures rows == Rows(tickets, checked, names)
  {
    rows := [];
    var i := 0;
    while i < |tickets|
      invariant 0 <= i <= |tickets|
      invariant rows == Rows(tickets[..i], checked, names)
    {
      assert tickets[..i + 1][..i] == tickets[..i];
      var teamName := tickets[i].teamName;
      var visited := Visited(tickets[i].studId);
      ghost var before := rows;
      var j := 0;
      while j < |visited|
        invariant 0 <= j <= |visited|
        invariant rows == before + TicketRows(teamName, visited[..j], checked, names)
      {
        var studId := visited[j];
        assert TicketRows(teamName, visited[..j + 1], checked, names)
            == TicketRows(teamName, visited[..j], checked, names) + [Row(teamName, StudentName(names, studId), studId in checked)];
        rows := rows + [Row(teamName, StudentName(names, studId), studId in checked)];
        j := j + 1;
      }
      assert visited[..j] == visited;
      i := i + 1;
    }
    assert tickets[..i] == tickets;
  }

  /** `GET /api/coordinator/participants`; `header` is `x-event-id`.  An
      event whose tickets have no members makes the user query
      `Query.equal("$id", [])`, which carries no values; the store refuses
      such a query, so the handler answers 500. */
  method Get(header: Option<string>, events: seq<Event>, tickets: seq<Ticket>, attendance: seq<Attendance>,
             users: seq<User>)
    returns (reply: Reply, rows: seq<Row>)
    ensures !Truthy(header) ==> reply == Reply(401, false, "Event ID missing") && rows == []
    ensures Truthy(header) && GetEvent(events, header.value).None? ==> reply == Failure && rows == []
    ensures Truthy(header) && GetEvent(events, header.value).Some? && AllVisited(TicketsOf(tickets, header.value)) == [] ==>
              reply == Failure && rows == []
    ensures reply.status == 200 <==>
              Truthy(header) && GetEvent(events, header.value).Some? && AllVisited(TicketsOf(tickets, header.value)) != []
    ensures reply.status == 200 ==>
              var eventTickets := TicketsOf(tickets, header.value);
              rows == Rows(eventTickets, CheckedInIds(AttendanceOf(attendance, header.value)),
                           NameMap(Queried(users, IdSet(AllVisited(eventTickets)))))
  {
    if !Truthy(header) {
      return Reply(401, false, "Event ID missing"), [];
    }
    if GetEvent(events, header.value).None? {
      return Failure, [];
    }
    var eventTickets := TicketsOf(tickets, header.value);
    var checked := CollectCheckedIn(AttendanceOf(attendance, header.value));
    var studentIds := CollectIds(eventTickets);
    NoIdsNoMembers(AllVisited(eventTickets));
    if studentIds == {} {
      return Failure, [];
    }
    var names := CollectNames(Queried(users, studentIds));
    rows := BuildRows(eventTickets, checked, names);
    reply := Reply(200, true, "");
  }

  // ------------------------------------------------------------- properties

  /** One row per visited member id, in order; a row is checked in exactly
      when some attendance record of the event carries its id, and shows
      the name stored for that id. */
  lemma {:induction false} RowsFollowVisitedIds(tickets: seq<Ticket>, checked: set<string>,
                                               names: map<string, Option<string>>)
    ensures var rows := Rows(tickets, checked, names);
            var ids := AllVisited(tickets);
            |rows| == |ids| &&
            forall i :: 0 <= i < |rows| ==>
              (rows[i].checkedIn <==> ids[i] in checked) && rows[i].studentName == StudentName(names, ids[i])
  {
    if tickets != [] {
      RowsFollowVisitedIds(tickets[..|tickets| - 1], checked, names);
    }
  }

  /** A member whose id is a user's id gets that user's name, or "Unknown"
      when the user has none; store ids are distinct. */
  lemma KnownStudentName(users: seq<User>, ids: set<string>, k: nat)
    requires DistinctUserIds(users) && k < |users| && users[k].id in ids
    ensures StudentName(NameMap(Queried(users, ids)), users[k].id) == Nullish(users[k].name, "Unknown")
  {
    var q := Queried(users, ids);
    assert users[k] in q;
    var m := NameMap(q);
    var j :| 0 <= j < |q| && q[j].id == users[k].id && m[users[k].id] == q[j].name;
    var n :| 0 <= n < |users| && users[n] == q[j];
    SameIdSameIndex(users, n, k);
  }

  lemma SameIdSameIndex(users: seq<User>, n: nat, k: nat)
    requires DistinctUserIds(users) && n < |users| && k < |users| && users[n].id == users[k].id
    ensures n == k
  {
  }

  /** A member id that is no user's id is listed as "Unknown". */
  lemma UnknownStudentName(users: seq<User>, ids: set<string>, id: string)
    requires forall k :: 0 <= k < |users| ==> users[k].id != id
    ensures StudentName(NameMap(Queried(users, ids)), id) == "Unknown"
  {
  }

  /** A ticket written with the scalar id "ab" yields one row per character:
      two rows, for the ids "a" and "b". */
  lemma ScalarIdSplitsIntoCharacters(t: Ticket)
    requires t.studId == OneStud("ab")
    ensures AllVisited([t]) == ["a", "b"]
  {
    assert [t][..0] == [];
  }
}
