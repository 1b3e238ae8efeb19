/** The detailed participant list of one event
    (app/api/coordinator/event-participants/route.ts): member ids are
    gathered without duplicates, users are looked up in batches of 100 with
    a full-table fallback, and one row is emitted per element of each
    list-valued membership.  The event is named by its document id in the
    `event_id` query parameter. */
module EventParticipants {
  import opened Common
  import opened Entities
  import Participants

  const ListLimit: nat := 500
  const BatchSize: nat := 100
  const FallbackLimit: nat := 1000

  // ----------------------------------------------------------- member ids

  /** The non-empty ids of a list, in order (`if (studId)`). */
  function NonEmpty(ids: seq<string>): (r: seq<string>)
    ensures forall x :: x in r <==> x in ids && x != ""
  {
    if ids == [] then []
    else
      var last := ids[|ids| - 1];
      assert ids == ids[..|ids| - 1] + [last];
      NonEmpty(ids[..|ids| - 1]) + (if last != "" then [last] else [])
  }

  /** What one ticket adds to `uniqueStudentIds`: the non-empty entries of
      a list, or a non-empty scalar id itself. */
  function Contributed(f: StudField): (r: seq<string>)
    ensures forall x :: x in r <==> x != "" && (f == OneStud(x) || (f.StudList? && x in f.ids))
  {
    match f
    case NoStud => []
    case OneStud(id) => if id != "" then [id] else []
    case StudList(ids) => NonEmpty(ids)
  }

  /** Every contributed id, ticket by ticket, duplicates included. */
  function Collected(tickets: seq<Ticket>): seq<string> {
    if tickets == [] then []
    else Collected(tickets[..|tickets| - 1]) + Contributed(tickets[|tickets| - 1].studId)
  }

  /** A `Set` read back with `Array.from`: first occurrences, in insertion
      order. */
  function Dedup(s: seq<string>): (r: seq<string>)
    ensures NoDuplicates(r)
    ensures forall x :: x in r <==> x in s
  {
    if s == [] then []
    else
      var d := Dedup(s[..|s| - 1]);
      var x := s[|s| - 1];
      assert s == s[..|s| - 1] + [x];
      if x in d then d else d + [x]
  }

  /** `uniqueIds` */
  function UniqueIds(tickets: seq<Ticket>): seq<string> {
    Dedup(Collected(tickets))
  }

  lemma DedupSnoc(s: seq<string>, x: string)
    ensures Dedup(s + [x]) == if x in Dedup(s) then Dedup(s) else Dedup(s) + [x]
  {
    assert (s + [x])[..|s|] == s;
  }

  lemma AddStep(before: seq<string>, list: seq<string>, j: nat)
    requires j < |list|
    ensures var d := Dedup(before + NonEmpty(list[..j]));
            Dedup(before + NonEmpty(list[..j + 1])) ==
              if list[j] != "" && list[j] !in d then d + [list[j]] else d
  {
    var x := list[j];
    assert list[..j + 1][..j] == list[..j];
    var prev := before + NonEmpty(list[..j]);
    if x != "" {
      assert before + NonEmpty(list[..j + 1]) == prev + [x];
      DedupSnoc(prev, x);
    } else {
      assert before + NonEmpty(list[..j + 1]) == prev;
    }
  }

  /** The inner loop over a list-valued membership. */
  method AddListIds(ghost before: seq<string>, acc: seq<string>, list: seq<string>) returns (ids: seq<string>)
    requires acc == Dedup(before)
    ensures ids == Dedup(before + NonEmpty(list))
  {
    ids := acc;
    assert before + NonEmpty(list[..0]) == before;
    var j := 0;
    while j < |list|
      invariant 0 <= j <= |list|
      invariant ids == Dedup(before + NonEmpty(list[..j]))
    {
      AddStep(before, list, j);
      if list[j] != "" && list[j] !in ids {
        ids := ids + [list[j]];
      }
      j := j + 1;
    }
    assert list[..j] == list;
  }

  lemma CollectedSnoc(tickets: seq<Ticket>, i: nat)
    requires i < |tickets|
    ensures Collected(tickets[..i + 1]) == Collected(tickets[..i]) + Contributed(tickets[i].studId)
  {
    assert tickets[..i + 1][..i] == tickets[..i];
  }

  /** The `uniqueStudentIds` loop. */
  method CollectUnique(tickets: seq<Ticket>) returns (ids: seq<string>)
    ensures ids == UniqueIds(tickets)
  {
    ids := [];
    var i := 0;
    while i < |tickets|
      invariant 0 <= i <= |tickets|
      invariant ids == Dedup(Collected(tickets[..i]))
    {
      CollectedSnoc(tickets, i);
      ghost var before := Collected(tickets[..i]);
      match tickets[i].studId {
        case NoStud =>
          assert before + [] == before;
        case OneStud(id) =>
          if id != "" {
            DedupSnoc(before, id);
            if id !in ids {
              ids := ids + [id];
            }
          } else {
            assert before + [] == before;
          }
        case StudList(list) =>
          ids := AddListIds(before, ids, list);
      }
      i := i + 1;
    }
    assert tickets[..i] == tickets;
  }

  // ------------------------------------------------------------ user info

  datatype Info = Info(name: string, email: string, phone: string, college: string)

  /** The record stored in `userMap` for a user. */
  function InfoOf(u: User): (r: Info)
    ensures r.name == OrElse(u.name, "Unknown")
    ensures Truthy(u.phone) ==> r.phone == u.phone.value
    ensures !Truthy(u.phone) && Truthy(u.phno) ==> r.phone == u.phno.value
    ensures !Truthy(u.phone) && !Truthy(u.phno) ==> r.phone == ""
  {
    Info(OrElse(u.name, "Unknown"), OrElse(u.email, ""), OrElse(u.phone, OrElse(u.phno, "")), OrElse(u.college, ""))
  }

  /** `userMap` filled from a list of users in order; a later user with the
      same id replaces an earlier one. */
  function InfoMap(users: seq<User>): (m: map<string, Info>)
    ensures forall x :: x in m <==> exists k :: 0 <= k < |users| && users[k].id == x
    ensures forall x :: x in m ==> exists k :: 0 <= k < |users| && users[k].id == x && m[x] == InfoOf(users[k])
  {
    if users == [] then map[]
    else
      var prefix := users[..|users| - 1];
      var last := users[|users| - 1];
      assert forall k :: 0 <= k < |prefix| ==> prefix[k] == users[k];
      InfoMap(prefix)[last.id := InfoOf(last)]
  }

  // -------------------------------------------------------- batched lookup

  /** `uniqueIds.slice(i, i + 100)` for i = 0, 100, 200, ... */
  function Batches(ids: seq<string>): (r: seq<seq<string>>)
    ensures forall k :: 0 <= k < |r| ==> 0 < |r[k]| <= BatchSize
    decreases |ids|
  {
    if ids == [] then []
    else
      var n := Min(|ids|, BatchSize);
      [ids[..n]] + Batches(ids[n..])
  }

  function Flatten(batches: seq<seq<string>>): seq<string> {
    if batches == [] then [] else batches[0] + Flatten(batches[1..])
  }

  /** One batch query: `Query.equal("$id", batch)` with `Query.limit(100)`. */
  function QueryBatch(users: seq<User>, batch: seq<string>): seq<User> {
    Take(Participants.Queried(users, Participants.IdSet(batch)), BatchSize)
  }

  /** The users the batch queries return, batch by batch. */
  function Fetched(users: seq<User>, batches: seq<seq<string>>): seq<User> {
    if batches == [] then [] else QueryBatch(users, batches[0]) + Fetched(users, batches[1..])
  }

  lemma InfoMapSnoc(users: seq<User>, u: User)
    ensures InfoMap(users + [u]) == InfoMap(users)[u.id := InfoOf(u)]
  {
    assert (users + [u])[..|users|] == users;
  }

  /** The `userMap.set` loop over one batch's users. */
  method AddInfos(ghost done: seq<User>, acc: map<string, Info>, result: seq<User>) returns (m: map<string, Info>)
    requires acc == InfoMap(done)
    ensures m == InfoMap(done + result)
  {
    m := acc;
    assert done + result[..0] == done;
    var k := 0;
    while k < |result|
      invariant 0 <= k <= |result|
      invariant m == InfoMap(done + result[..k])
    {
      ghost var seen := done + result[..k];
      InfoMapSnoc(seen, result[k]);
      assert seen + [result[k]] == done + result[..k + 1];
      m := m[result[k].id := InfoOf(result[k])];
      k := k + 1;
    }
    assert result[..k] == result;
  }

  lemma Regroup(a: seq<User>, b: seq<User>, c: seq<User>)
    ensures a + (b + c) == (a + b) + c
  {
  }

  /** The batches from offset `i` on: the one starting at `i`, then the
      rest. */
  lemma FetchedStep(users: seq<User>, ids: seq<string>, i: nat)
    requires i < |ids|
    ensures Fetched(users, Batches(ids[i..])) ==
              QueryBatch(users, ids[i..Min(i + BatchSize, |ids|)]) + Fetched(users, Batches(ids[Min(i + BatchSize, |ids|)..]))
  {
    var rest := ids[i..];
    var end := Min(i + BatchSize, |ids|);
    assert rest[..Min(|rest|, BatchSize)] == ids[i..end];
    assert rest[Min(|rest|, BatchSize)..] == ids[end..];
  }

  /** The batch loop. */
  method BatchLookup(users: seq<User>, ids: seq<string>) returns (m: map<string, Info>)
    ensures m == InfoMap(Fetched(users, Batches(ids)))
  {
    m := map[];
    ghost var done: seq<User> := [];
    var i := 0;
    assert ids[0..] == ids;
    while i < |ids|
      invariant 0 <= i <= |ids|
      invariant Fetched(users, Batches(ids)) == done + Fetched(users, Batches(ids[i..]))
      invariant m == InfoMap(done)
      decreases |ids| - i
    {
      var end := Min(i + BatchSize, |ids|);
      var result := QueryBatch(users, ids[i..end]);
      FetchedStep(users, ids, i);
      m := AddInfos(done, m, result);
      Regroup(done, result, Fetched(users, Batches(ids[end..])));
      done := done + result;
      i := end;
    }
    assert ids[i..] == [];
    assert done + [] == done;
  }

  // -------------------------------------------------------------- fallback

  /** The fallback's test of a user against one collected id. */
  predicate UserMatches(u: User, id: string) {
    u.id == id || u.email == Some(id) || u.phone == Some(id) || u.studId == Some(id)
  }

  /** The first collected id a user matches (the inner loop's `break`). */
  function FirstMatchId(u: User, ids: seq<string>): (r: Option<string>)
    ensures r.Some? ==> r.value in ids && UserMatches(u, r.value)
    ensures r.None? <==> forall k :: 0 <= k < |ids| ==> !UserMatches(u, ids[k])
  {
    match FirstIndex(ids, (x: string) => UserMatches(u, x))
    case None => None
    case Some(k) => Some(ids[k])
  }

  /** `userMap` filled by the fallback: each user, in order, is stored under
      the first collected id it matches. */
  function FallbackMap(users: seq<User>, ids: seq<string>): (m: map<string, Info>)
    ensures forall x :: x in m ==> x in ids
    ensures forall x :: x in m ==> exists k :: 0 <= k < |users| && FirstMatchId(users[k], ids) == Some(x) && m[x] == InfoOf(users[k])
    ensures forall k :: 0 <= k < |users| && FirstMatchId(users[k], ids).Some? ==> FirstMatchId(users[k], ids).value in m
  {
    if users == [] then map[]
    else
      var prefix := users[..|users| - 1];
      var last := users[|users| - 1];
      assert forall k :: 0 <= k < |prefix| ==> prefix[k] == users[k];
      var before := FallbackMap(prefix, ids);
      match FirstMatchId(last, ids)
      case None => before
      case Some(x) => before[x := InfoOf(last)]
  }

  /** The fallback loop over all users. */
  method FallbackLookup(users: seq<User>, ids: seq<string>) returns (m: map<string, Info>)
    ensures m == FallbackMap(users, ids)
  {
    m := map[];
    var i := 0;
    while i < |users|
      invariant 0 <= i <= |users|
      invariant m == FallbackMap(users[..i], ids)
    {
      assert users[..i + 1][..i] == users[..i];
      var x := MatchingId(users[i], ids);
      if x.Some? {
        m := m[x.value := InfoOf(users[i])];
      }
      i := i + 1;
    }
    assert users[..i] == users;
  }

  /** The inner loop: scan the ids until one matches the user. */
  method MatchingId(u: User, ids: seq<string>) returns (x: Option<string>)
    ensures x == FirstMatchId(u, ids)
  {
    var j := 0;
    while j < |ids| && !UserMatches(u, ids[j])
      invariant 0 <= j <= |ids|
      invariant forall k :: 0 <= k < j ==> !UserMatches(u, ids[k])
    {
      j := j + 1;
    }
    if j < |ids| {
      var found := FirstIndex(ids, (y: string) => UserMatches(u, y));
      assert found == Some(j);
      return Some(ids[j]);
    }
    return None;
  }

  /** `userMap` after both lookups: batched first, the full table only when
      the batches matched nobody, nothing at all without ids. */
  function UserMap(users: seq<User>, ids: seq<string>): map<string, Info> {
    if ids == [] then map[]
    else
      var batched := InfoMap(Fetched(users, Batches(ids)));
      if |batched| == 0 then FallbackMap(Take(users, FallbackLimit), ids) else batched
  }

  // ------------------------------------------------------------------ rows

  datatype Row = Row(
    teamName: Option<string>,
    studentName: string,
    email: string,
    phone: string,
    college: string,
    studId: string,
    checkedIn: bool)

  const NoInfo := Info("Unknown", "", "", "")

  /** `userMap.get(studId) || {name: "Unknown", ...}` */
  function InfoFor(m: map<string, Info>, id: string): Info {
    if id in m then m[id] else NoInfo
  }

  /** The ids a ticket emits rows for: list entries only, empty ones
      included. */
  function ListIds(f: StudField): seq<string> {
    if f.StudList? then f.ids else []
  }

  function AllListIds(tickets: seq<Ticket>): seq<string> {
    if tickets == [] then []
    else AllListIds(tickets[..|tickets| - 1]) + ListIds(tickets[|tickets| - 1].studId)
  }

  function MakeRow(teamName: Option<string>, id: string, checked: set<string>, m: map<string, Info>): Row {
    var info := InfoFor(m, id);
    Row(teamName, info.name, info.email, info.phone, info.college, id, id in checked)
  }

  function TicketRows(teamName: Option<string>, ids: seq<string>, checked: set<string>, m: map<string, Info>): seq<Row> {
    seq(|ids|, k requires 0 <= k < |ids| => MakeRow(teamName, ids[k], checked, m))
  }

  function Rows(tickets: seq<Ticket>, checked: set<string>, m: map<string, Info>): seq<Row> {
    if tickets == [] then []
    else
      var last := tickets[|tickets| - 1];
      Rows(tickets[..|tickets| - 1], checked, m) + TicketRows(last.teamName, ListIds(last.studId), checked, m)
  }

  /** The loop that pushes the rows. */
  method BuildRows(tickets: seq<Ticket>, checked: set<string>, m: map<string, Info>) returns (rows: seq<Row>)
    ensures rows == Rows(tickets, checked, m)
  {
    rows := [];
    var i := 0;
    while i < |tickets|
      invariant 0 <= i <= |tickets|
      invariant rows == Rows(tickets[..i], checked, m)
    {
      assert tickets[..i + 1][..i] == tickets[..i];
      var teamName := tickets[i].teamName;
      var ids := ListIds(tickets[i].studId);
      ghost var before := rows;
      var j := 0;
      while j < |ids|
        invariant 0 <= j <= |ids|
        invariant rows == before + TicketRows(teamName, ids[..j], checked, m)
      {
        assert TicketRows(teamName, ids[..j + 1], checked, m)
            == TicketRows(teamName, ids[..j], checked, m) + [MakeRow(teamName, ids[j], checked, m)];
        rows := rows + [MakeRow(teamName, ids[j], checked, m)];
        j := j + 1;
      }
      assert ids[..j] == ids;
      i := i + 1;
    }
    assert tickets[..i] == tickets;
  }

  // --------------------------------------------------------------- handler

  /** `GET /api/coordinator/event-participants`; `session` is the
      `coord_session` cookie and `eventIdParam` the `event_id` parameter. */
  method Get(session: Option<string>, eventIdParam: Option<string>, events: seq<Event>, tickets: seq<Ticket>,
             attendance: seq<Attendance>, users: seq<User>)
    returns (reply: Reply, eventName: Option<string>, count: nat, rows: seq<Row>)
    ensures !Truthy(session) ==> reply == Reply(401, false, "Not authenticated as coordinator")
    ensures Truthy(session) && !Truthy(eventIdParam) ==> reply == Reply(400, false, "Event ID is required")
    ensures Truthy(session) && Truthy(eventIdParam) && GetEvent(events, eventIdParam.value).None? ==>
              reply == Reply(404, false, "Event not found")
    ensures reply.status == 200 <==>
              Truthy(session) && Truthy(eventIdParam) && GetEvent(events, eventIdParam.value).Some?
    ensures reply.status != 200 ==> eventName.None? && count == 0 && rows == []
    ensures reply.status == 200 ==>
              var id := eventIdParam.value;
              var eventTickets := Take(TicketsOf(tickets, id), ListLimit);
              eventName == Some(GetEvent(events, id).value.name) && count == |rows| &&
              rows == Rows(eventTickets, CheckedInIds(Take(AttendanceOf(attendance, id), ListLimit)),
                           UserMap(users, UniqueIds(eventTickets)))
  {
    if !Truthy(session) {
      return Reply(401, false, "Not authenticated as coordinator"), None, 0, [];
    }
    if !Truthy(eventIdParam) {
      return Reply(400, false, "Event ID is required"), None, 0, [];
    }
    var id := eventIdParam.value;
    var event := GetEvent(events, id);
    if event.None? {
      return Reply(404, false, "Event not found"), None, 0, [];
    }
    var eventTickets := Take(TicketsOf(tickets, id), ListLimit);
    var checked := Participants.CollectCheckedIn(Take(AttendanceOf(attendance, id), ListLimit));
    var uniqueIds := CollectUnique(eventTickets);
    var m: map<string, Info> := map[];
    if |uniqueIds| > 0 {
      m := BatchLookup(users, uniqueIds);
      if |m| == 0 {
        m := FallbackLookup(Take(users, FallbackLimit), uniqueIds);
      }
    }
    rows := BuildRows(eventTickets, checked, m);
    count := |rows|;
    eventName := Some(event.value.name);
    reply := Reply(200, true, "");
  }

  // ------------------------------------------------------------- properties

  /** The collected ids are exactly the non-empty list entries and non-empty
      scalar ids of the tickets. */
  lemma {:induction false} CollectedIds(tickets: seq<Ticket>, x: string)
    ensures x in Collected(tickets) <==> exists i :: 0 <= i < |tickets| && x in Contributed(tickets[i].studId)
  {
    if tickets != [] {
      var prefix := tickets[..|tickets| - 1];
      CollectedIds(prefix, x);
      assert forall i :: 0 <= i < |prefix| ==> prefix[i] == tickets[i];
    }
  }

  /** The batches partition the id list: concatenated in order they give it
      back, so every collected id is looked up exactly once. */
  lemma {:induction false} BatchesCoverIds(ids: seq<string>)
    ensures Flatten(Batches(ids)) == ids
    decreases |ids|
  {
    if ids != [] {
      var n := Min(|ids|, BatchSize);
      BatchesCoverIds(ids[n..]);
      assert ids[..n] + ids[n..] == ids;
    }
  }

  /** One row per list entry, in order; each row carries its id, is checked
      in exactly when the id is in the attendance set, and an id the lookup
      did not resolve shows "Unknown" and empty strings. */
  lemma {:induction false} RowsFollowListIds(tickets: seq<Ticket>, checked: set<string>, m: map<string, Info>)
    ensures var rows := Rows(tickets, checked, m);
            var ids := AllListIds(tickets);
            |rows| == |ids| &&
            forall i :: 0 <= i < |rows| ==>
              rows[i].studId == ids[i] && (rows[i].checkedIn <==> ids[i] in checked) &&
              (ids[i] !in m ==> rows[i].studentName == "Unknown" && rows[i].email == "" &&
                                rows[i].phone == "" && rows[i].college == "")
  {
    if tickets != [] {
      RowsFollowListIds(tickets[..|tickets| - 1], checked, m);
    }
  }

  /** A ticket with a non-empty scalar id puts that id into the lookup set
      but emits no row. */
  lemma ScalarIdListedButNoRow(t: Ticket, s: string, checked: set<string>, m: map<string, Info>)
    requires t.studId == OneStud(s) && s != ""
    ensures UniqueIds([t]) == [s]
    ensures Rows([t], checked, m) == []
  {
    assert [t][..0] == [];
    assert Collected([t]) == [s];
    assert Dedup([s]) == Dedup([s][..0]) + [s];
  }
}
