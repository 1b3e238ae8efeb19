/** Ticket issuance (app/api/tickets/generate/route.ts): create the ticket,
    then one attendance placeholder per listed student, then append the new
    ticket id to each listed student's `tickets` array.  The steps run in
    order and nothing is undone when a later step fails.  The concurrent
    fan-outs of the source run here one request after the other, in list
    order; the id the store assigns to the new ticket is a parameter. */
module Generate {
  import opened Common
  import opened Json
  import opened Entities
  import opened Schemas

  /** `Array.isArray(userDoc.tickets) ? userDoc.tickets : []` */
  function TicketList(u: User): seq<string> {
    if u.tickets.Some? then u.tickets.value else []
  }

  /** The users after the ticket `ticketId` is appended to the user
      `userId`; a missing user is left out (its update throws). */
  function WithTicket(users: seq<User>, userId: string, ticketId: string): (r: seq<User>)
    ensures |r| == |users| && forall k :: 0 <= k < |users| ==> r[k].id == users[k].id
  {
    seq(|users|, k requires 0 <= k < |users| =>
      if users[k].id == userId then users[k].(tickets := Some(TicketList(users[k]) + [ticketId])) else users[k])
  }

  /** The users after the appends for every id in `ids`, in order. */
  function AppendAll(users: seq<User>, ids: seq<string>, ticketId: string): (r: seq<User>)
    ensures |r| == |users| && forall k :: 0 <= k < |users| ==> r[k].id == users[k].id
    decreases |ids|
  {
    if ids == [] then users
    else WithTicket(AppendAll(users, ids[..|ids| - 1], ticketId), ids[|ids| - 1], ticketId)
  }

  /** The attendance placeholders for the listed students. */
  function Placeholders(eventId: string, ticketId: string, ids: seq<string>): (r: seq<Attendance>)
    ensures |r| == |ids|
  {
    seq(|ids|, i requires 0 <= i < |ids| => Attendance(eventId, ticketId, ids[i], Some(false)))
  }

  /** Some user document has the id. */
  predicate HasUser(users: seq<User>, id: string) {
    exists k :: 0 <= k < |users| && users[k].id == id
  }

  /** Every listed id names a user document. */
  predicate AllUsersExist(users: seq<User>, ids: seq<string>) {
    forall i :: 0 <= i < |ids| ==> HasUser(users, ids[i])
  }

  const Failure := Reply(500, false, "Ticket generation failed")

  datatype Outcome = Outcome(
    reply: Reply,
    ticketId: Option<string>,
    tickets: seq<Ticket>,
    attendance: seq<Attendance>,
    users: seq<User>)

  /** The response and the three collections after one request; `newId` is
      the id the store gives the new ticket and `exposesErrors` is as in
      `Schemas.Refused`. */
  function Issue(tickets: seq<Ticket>, attendance: seq<Attendance>, users: seq<User>,
                 body: Option<Json>, newId: string, exposesErrors: bool): (o: Outcome)
    ensures o.ticketId.Some? <==> o.reply.status == 200
    ensures o.reply.status == 400 <==> exposesErrors && body.Some? && ParseGenerateTicket(body.value).Fail?
    ensures o.ticketId.Some? ==> o.ticketId.value == newId
    ensures body.None? || ParseGenerateTicket(body.value).Fail? ==>
              o.tickets == tickets && o.attendance == attendance && o.users == users
    ensures body.Some? && ParseGenerateTicket(body.value).Pass? ==>
              var req := ParseGenerateTicket(body.value).value;
              o.tickets == tickets + [Ticket(newId, req.eventId, StudList(req.studIds), None, true)] &&
              o.attendance == attendance + Placeholders(req.eventId, newId, req.studIds) &&
              o.users == AppendAll(users, req.studIds, newId) &&
              (o.reply.status == 200 <==> AllUsersExist(users, req.studIds))
  {
    if body.None? then Outcome(Failure, None, tickets, attendance, users)
    else match ParseGenerateTicket(body.value)
      case Fail(issue) => Outcome(Refused(issue, exposesErrors, Failure), None, tickets, attendance, users)
      case Pass(req) =>
        var ticket := Ticket(newId, req.eventId, StudList(req.studIds), None, true);
        var users' := AppendAll(users, req.studIds, newId);
        if AllUsersExist(users, req.studIds) then
          Outcome(Reply(200, true, ""), Some(newId), tickets + [ticket],
                  attendance + Placeholders(req.eventId, newId, req.studIds), users')
        else
          Outcome(Failure, None, tickets + [ticket],
                  attendance + Placeholders(req.eventId, newId, req.studIds), users')
  }

  /** `POST /api/tickets/generate` on the primary store. */
  method Post(db: Backend, body: Option<Json>, newId: string, exposesErrors: bool) returns (reply: Reply, ticketId: Option<string>)
    requires db.Valid()
    requires forall k :: 0 <= k < |db.tickets| ==> db.tickets[k].id != newId
    modifies db
    ensures db.Valid()
    ensures var o := Issue(old(db.tickets), old(db.attendance), old(db.users), body, newId, exposesErrors);
            reply == o.reply && ticketId == o.ticketId && db.tickets == o.tickets &&
            db.attendance == o.attendance && db.users == o.users
    ensures db.events == old(db.events)
  {
    if body.None? {
      return Failure, None;
    }
    var parsed := ParseGenerateTicket(body.value);
    if parsed.Fail? {
      return Refused(parsed.issue, exposesErrors, Failure), None;
    }
    var req := parsed.value;
    db.tickets := db.tickets + [Ticket(newId, req.eventId, StudList(req.studIds), None, true)];
    CreatePlaceholders(db, req.eventId, newId, req.studIds);
    var missing := AppendToUsers(db, req.studIds, newId);
    if missing {
      return Failure, None;
    }
    return Reply(200, true, ""), Some(newId);
  }

  /** One placeholder document per listed student, in list order. */
  method CreatePlaceholders(db: Backend, eventId: string, newId: string, ids: seq<string>)
    modifies db
    ensures db.attendance == old(db.attendance) + Placeholders(eventId, newId, ids)
    ensures db.events == old(db.events) && db.tickets == old(db.tickets) && db.users == old(db.users)
  {
    var i := 0;
    while i < |ids|
      invariant 0 <= i <= |ids|
      invariant db.attendance == old(db.attendance) + Placeholders(eventId, newId, ids[..i])
      invariant db.events == old(db.events) && db.tickets == old(db.tickets) && db.users == old(db.users)
    {
      db.attendance := db.attendance + [Attendance(eventId, newId, ids[i], Some(false))];
      i := i + 1;
    }
    assert ids[..i] == ids;
  }

  /** The read-modify-write append on each listed user; `missing` reports
      whether some listed user does not exist (its lookup throws). */
  method AppendToUsers(db: Backend, ids: seq<string>, newId: string) returns (missing: bool)
    requires DistinctUserIds(db.users)
    modifies db
    ensures db.users == AppendAll(old(db.users), ids, newId)
    ensures missing <==> !AllUsersExist(old(db.users), ids)
    ensures DistinctUserIds(db.users)
    ensures db.events == old(db.events) && db.tickets == old(db.tickets) && db.attendance == old(db.attendance)
  {
    var users := db.users;
    missing := false;
    var j := 0;
    while j < |ids|
      invariant 0 <= j <= |ids|
      invariant users == AppendAll(old(db.users), ids[..j], newId)
      invariant missing <==> !AllUsersExist(old(db.users), ids[..j])
      invariant DistinctUserIds(users)
      invariant unchanged(db)
    {
      AppendAllSnoc(old(db.users), ids, j, newId);
      AllUsersExistSnoc(old(db.users), ids, j);
      HasUserKept(old(db.users), ids[..j], ids[j], newId);
      var at := UserIndex(users, ids[j]);
      assert at.Some? <==> HasUser(users, ids[j]);
      if at.Some? {
        users := WithTicket(users, ids[j], newId);
      } else {
        missing := true;
      }
      j := j + 1;
    }
    assert ids[..j] == ids;
    db.users := users;
  }

  /** One more id: the fold takes one more step. */
  lemma AppendAllSnoc(users: seq<User>, ids: seq<string>, j: nat, ticketId: string)
    requires j < |ids|
    ensures AppendAll(users, ids[..j + 1], ticketId) == WithTicket(AppendAll(users, ids[..j], ticketId), ids[j], ticketId)
  {
    assert ids[..j + 1][..j] == ids[..j];
  }

  /** One more id: the existence check takes one more conjunct. */
  lemma AllUsersExistSnoc(users: seq<User>, ids: seq<string>, j: nat)
    requires j < |ids|
    ensures AllUsersExist(users, ids[..j + 1]) <==> AllUsersExist(users, ids[..j]) && HasUser(users, ids[j])
  {
    var longer := ids[..j + 1];
    assert forall i :: 0 <= i < j ==> longer[i] == ids[..j][i];
    assert longer[j] == ids[j];
  }

  /** The appends keep the set of user ids. */
  lemma HasUserKept(users: seq<User>, ids: seq<string>, id: string, ticketId: string)
    ensures HasUser(AppendAll(users, ids, ticketId), id) <==> HasUser(users, id)
  {
    var now := AppendAll(users, ids, ticketId);
    if HasUser(users, id) {
      var k :| 0 <= k < |users| && users[k].id == id;
      assert now[k].id == id;
    }
    if HasUser(now, id) {
      var k :| 0 <= k < |now| && now[k].id == id;
      assert users[k].id == id;
    }
  }

  // ------------------------------------------------------------- properties

  /** The effect of the appends: with a duplicate-free id list, each listed
      user's `tickets` becomes its old array (or [] when it was not an
      array) with the new id at the end; every other user is unchanged. */
  lemma {:induction false} AppendAllEffect(users: seq<User>, ids: seq<string>, ticketId: string)
    requires DistinctUserIds(users) && NoDuplicates(ids)
    ensures forall k :: 0 <= k < |users| ==>
              AppendAll(users, ids, ticketId)[k] ==
                if users[k].id in ids then users[k].(tickets := Some(TicketList(users[k]) + [ticketId]))
                else users[k]
  {
    if ids != [] {
      var prefix := ids[..|ids| - 1];
      var last := ids[|ids| - 1];
      assert NoDuplicates(prefix);
      AppendAllEffect(users, prefix, ticketId);
      forall k | 0 <= k < |users|
        ensures AppendAll(users, ids, ticketId)[k] ==
                  if users[k].id in ids then users[k].(tickets := Some(TicketList(users[k]) + [ticketId]))
                  else users[k]
      {
        assert ids == prefix + [last];
        if users[k].id == last {
          assert users[k].id !in prefix;
        }
      }
    }
  }

  /** The ticket's member list is the requested list in the same order, the
      ticket is active, and `team_name` is never stored even when sent. */
  lemma IssuedTicketShape(tickets: seq<Ticket>, attendance: seq<Attendance>, users: seq<User>, body: Json, newId: string,
                           exposesErrors: bool)
    requires ParseGenerateTicket(body).Pass?
    ensures var o := Issue(tickets, attendance, users, Some(body), newId, exposesErrors);
            var req := ParseGenerateTicket(body).value;
            |o.tickets| == |tickets| + 1 &&
            o.tickets[|tickets|].studId == StudList(req.studIds) &&
            o.tickets[|tickets|].eventId == req.eventId &&
            o.tickets[|tickets|].active &&
            o.tickets[|tickets|].teamName == None
  {
  }

  /** One placeholder per list entry, each not yet present and pointing at
      the new ticket; a student listed twice gets two. */
  lemma {:induction false} OnePlaceholderPerEntry(eventId: string, ticketId: string, ids: seq<string>, s: string)
    ensures Count(Placeholders(eventId, ticketId, ids), (a: Attendance) => a.studId == s)
            == Count(ids, (x: string) => x == s)
    ensures forall i :: 0 <= i < |ids| ==>
              Placeholders(eventId, ticketId, ids)[i].present == Some(false) &&
              Placeholders(eventId, ticketId, ids)[i].ticketId == ticketId
    decreases |ids|
  {
    if ids != [] {
      var p := Placeholders(eventId, ticketId, ids);
      var ofS := (a: Attendance) => a.studId == s;
      var isS := (x: string) => x == s;
      OnePlaceholderPerEntry(eventId, ticketId, ids[1..], s);
      assert p[1..] == Placeholders(eventId, ticketId, ids[1..]);
      assert Count(p, ofS) == (if ofS(p[0]) then 1 else 0) + Count(p[1..], ofS);
      assert Count(ids, isS) == (if isS(ids[0]) then 1 else 0) + Count(ids[1..], isS);
    }
  }

  /** No rollback: when a listed student has no user document the response
      is a failure, yet the ticket and all placeholders have been written and
      the students that exist have the ticket appended. */
  lemma FailureKeepsEarlierWrites(tickets: seq<Ticket>, attendance: seq<Attendance>, users: seq<User>, body: Json, newId: string,
                           exposesErrors: bool)
    requires ParseGenerateTicket(body).Pass?
    requires !AllUsersExist(users, ParseGenerateTicket(body).value.studIds)
    ensures var o := Issue(tickets, attendance, users, Some(body), newId, exposesErrors);
            var req := ParseGenerateTicket(body).value;
            o.reply == Failure && |o.tickets| == |tickets| + 1 &&
            |o.attendance| == |attendance| + |req.studIds|
  {
  }
}
