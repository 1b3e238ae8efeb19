/** The older check-in endpoint (app/api/tickets/mark-attendence/route.ts,
    spelled as in the source tree): it never creates records; it flips the
    `present` flag of the placeholder record that ticket issuance created.
    Its body fields are read without a schema, so they may be any JSON
    value.  Attendance records carry no document id in this model; the
    record the handler updates is identified by its position. */
module MarkAttendence {
  import opened Common
  import opened Json
  import opened Entities

  const Failure := Reply(500, false, "Failed to mark attendance")

  datatype Outcome = Outcome(reply: Reply, attendance: seq<Attendance>)

  /** The query on `ticket_id` and `stud_id` (not on the event) matches the
      record; an array request value matches any of its items. */
  predicate QueryMatches(a: Attendance, ticketId: Json, studId: Json) {
    EqualMatches(a.ticketId, ticketId) && EqualMatches(a.studId, studId)
  }

  /** The position of the first record the query returns. */
  function FirstMatch(attendance: seq<Attendance>, ticketId: Json, studId: Json): (r: Option<nat>)
    ensures r.Some? ==> r.value < |attendance| && QueryMatches(attendance[r.value], ticketId, studId)
    ensures r.Some? ==> forall k :: 0 <= k < r.value ==> !QueryMatches(attendance[k], ticketId, studId)
    ensures r.None? <==> forall k :: 0 <= k < |attendance| ==> !QueryMatches(attendance[k], ticketId, studId)
  {
    FirstIndex(attendance, (a: Attendance) => QueryMatches(a, ticketId, studId))
  }

  /** The response and the attendance collection after one request.  `body`
      is `None` when the request body is not JSON; destructuring a `null`
      body throws as well. */
  function Mark(tickets: seq<Ticket>, attendance: seq<Attendance>, body: Option<Json>): (o: Outcome)
    ensures |o.attendance| == |attendance|
    ensures o.reply.status in {200, 400, 403, 404, 500}
    ensures o.reply.status != 200 ==> o.attendance == attendance
  {
    if body.None? || body.value.JNull? then Outcome(Failure, attendance)
    else
      var ticketId := Get(body.value, "ticket_id");
      var studId := Get(body.value, "stud_id");
      var eventId := Get(body.value, "event_id");
      if !TruthyOpt(ticketId) || !TruthyOpt(studId) || !TruthyOpt(eventId) then
        Outcome(Reply(400, false, "Missing ticket_id, stud_id, or event_id"), attendance)
      else if GetTicket(tickets, ToText(ticketId.value)).None? then
        Outcome(Failure, attendance)
      else if JStr(GetTicket(tickets, ToText(ticketId.value)).value.eventId) != eventId.value then
        Outcome(Reply(403, false, "Ticket does not belong to this event"), attendance)
      else if EqualValues(studId.value) == [] then Outcome(Failure, attendance)
      else match FirstMatch(attendance, ticketId.value, studId.value)
        case None => Outcome(Reply(404, false, "Attendance record not found"), attendance)
        case Some(i) =>
          if attendance[i].present == Some(true) then
            Outcome(Reply(200, true, "Already marked present"), attendance)
          else
            Outcome(Reply(200, true, "Attendance marked successfully"),
                    attendance[i := attendance[i].(present := Some(true))])
  }

  /** `POST /api/tickets/mark-attendence` on the primary store. */
  method Post(db: Backend, body: Option<Json>) returns (reply: Reply)
    modifies db
    ensures reply == Mark(old(db.tickets), old(db.attendance), body).reply
    ensures db.attendance == Mark(old(db.tickets), old(db.attendance), body).attendance
    ensures db.events == old(db.events) && db.tickets == old(db.tickets) && db.users == old(db.users)
  {
    if body.None? || body.value.JNull? {
      return Failure;
    }
    var ticketId := Get(body.value, "ticket_id");
    var studId := Get(body.value, "stud_id");
    var eventId := Get(body.value, "event_id");
    if !TruthyOpt(ticketId) || !TruthyOpt(studId) || !TruthyOpt(eventId) {
      return Reply(400, false, "Missing ticket_id, stud_id, or event_id");
    }
    var ticket := GetTicket(db.tickets, ToText(ticketId.value));
    if ticket.None? {
      return Failure;
    }
    if JStr(ticket.value.eventId) != eventId.value {
      return Reply(403, false, "Ticket does not belong to this event");
    }
    if EqualValues(studId.value) == [] {
      return Failure;
    }
    var found := FirstMatch(db.attendance, ticketId.value, studId.value);
    if found.None? {
      return Reply(404, false, "Attendance record not found");
    }
    var i := found.value;
    if db.attendance[i].present == Some(true) {
      return Reply(200, true, "Already marked present");
    }
    db.attendance := db.attendance[i := db.attendance[i].(present := Some(true))];
    reply := Reply(200, true, "Attendance marked successfully");
  }

  // ------------------------------------------------------------- properties

  /** This variant never creates or removes a record; it changes at most the
      `present` flag of the first matching record, and only to true. */
  lemma OnlyFirstMatchTurnsPresent(tickets: seq<Ticket>, attendance: seq<Attendance>, body: Option<Json>)
    ensures var o := Mark(tickets, attendance, body);
            forall k :: 0 <= k < |attendance| && o.attendance[k] != attendance[k] ==>
              o.attendance[k] == attendance[k].(present := Some(true)) &&
              attendance[k].present != Some(true) &&
              body.Some? && Get(body.value, "ticket_id").Some? && Get(body.value, "stud_id").Some? &&
              FirstMatch(attendance, Get(body.value, "ticket_id").value, Get(body.value, "stud_id").value) == Some(k)
  {
    var o := Mark(tickets, attendance, body);
    if o.attendance != attendance {
      assert body.Some? && Get(body.value, "ticket_id").Some? && Get(body.value, "stud_id").Some?;
      var i := FirstMatch(attendance, Get(body.value, "ticket_id").value, Get(body.value, "stud_id").value).value;
      assert attendance[i].present != Some(true) && o.attendance == attendance[i := attendance[i].(present := Some(true))];
    }
  }

  /** `present` is never reset: a record that is present stays present. */
  lemma PresentIsNeverCleared(tickets: seq<Ticket>, attendance: seq<Attendance>, body: Option<Json>)
    ensures forall k :: 0 <= k < |attendance| && attendance[k].present == Some(true) ==>
              Mark(tickets, attendance, body).attendance[k].present == Some(true)
  {
    OnlyFirstMatchTurnsPresent(tickets, attendance, body);
  }

  /** The request passes the presence check and names a stored ticket of
      the requested event, with at least one student id to query. */
  predicate Owned(tickets: seq<Ticket>, body: Json) {
    !body.JNull? && TruthyOpt(Get(body, "ticket_id")) && TruthyOpt(Get(body, "stud_id")) &&
    TruthyOpt(Get(body, "event_id")) && EqualValues(Get(body, "stud_id").value) != [] &&
    GetTicket(tickets, ToText(Get(body, "ticket_id").value)).Some? &&
    JStr(GetTicket(tickets, ToText(Get(body, "ticket_id").value)).value.eventId) == Get(body, "event_id").value
  }

  /** A stored ticket of another event is refused with 403 and nothing is
      written. */
  lemma MismatchIsForbidden(tickets: seq<Ticket>, attendance: seq<Attendance>, body: Json)
    requires !body.JNull? && TruthyOpt(Get(body, "ticket_id")) && TruthyOpt(Get(body, "stud_id")) &&
             TruthyOpt(Get(body, "event_id"))
    requires GetTicket(tickets, ToText(Get(body, "ticket_id").value)).Some?
    requires JStr(GetTicket(tickets, ToText(Get(body, "ticket_id").value)).value.eventId) != Get(body, "event_id").value
    ensures Mark(tickets, attendance, Some(body)) ==
            Outcome(Reply(403, false, "Ticket does not belong to this event"), attendance)
  {
  }

  /** An owned request that the attendance query finds no record for is
      refused with 404 and nothing is written. */
  lemma NoRecordIsNotFound(tickets: seq<Ticket>, attendance: seq<Attendance>, body: Json)
    requires Owned(tickets, body)
    requires forall k :: 0 <= k < |attendance| ==>
               !QueryMatches(attendance[k], Get(body, "ticket_id").value, Get(body, "stud_id").value)
    ensures Mark(tickets, attendance, Some(body)) ==
            Outcome(Reply(404, false, "Attendance record not found"), attendance)
  {
  }

  /** An owned request whose first matching record is not present sets
      exactly that record present and answers "Attendance marked
      successfully". */
  lemma FirstMatchIsSetPresent(tickets: seq<Ticket>, attendance: seq<Attendance>, body: Json, i: nat)
    requires Owned(tickets, body)
    requires FirstMatch(attendance, Get(body, "ticket_id").value, Get(body, "stud_id").value) == Some(i)
    requires attendance[i].present != Some(true)
    ensures Mark(tickets, attendance, Some(body)) ==
            Outcome(Reply(200, true, "Attendance marked successfully"),
                    attendance[i := attendance[i].(present := Some(true))])
  {
  }

  /** An owned request whose first matching record is already present
      answers "Already marked present" and writes nothing. */
  lemma PresentMatchIsAlreadyPresent(tickets: seq<Ticket>, attendance: seq<Attendance>, body: Json, i: nat)
    requires Owned(tickets, body)
    requires FirstMatch(attendance, Get(body, "ticket_id").value, Get(body, "stud_id").value) == Some(i)
    requires attendance[i].present == Some(true)
    ensures Mark(tickets, attendance, Some(body)) ==
            Outcome(Reply(200, true, "Already marked present"), attendance)
  {
  }

  /** An array `stud_id` is a list of alternatives: the first record of the
      ticket whose student is any of them is the one set present. */
  lemma ArrayStudIdMatchesAnyItem(tickets: seq<Ticket>, attendance: seq<Attendance>, body: Json, k: nat)
    requires Owned(tickets, body) && Get(body, "stud_id").value.JArr?
    requires k < |attendance| && JStr(attendance[k].ticketId) == Get(body, "ticket_id").value
    requires JStr(attendance[k].studId) in Get(body, "stud_id").value.items
    ensures Mark(tickets, attendance, Some(body)).reply.status == 200
  {
    assert QueryMatches(attendance[k], Get(body, "ticket_id").value, Get(body, "stud_id").value);
  }

  /** Repeated requests converge: after one successful request, the same
      request answers "Already marked present" and writes nothing. */
  lemma RepeatConverges(tickets: seq<Ticket>, attendance: seq<Attendance>, body: Option<Json>)
    requires Mark(tickets, attendance, body).reply.status == 200
    ensures var once := Mark(tickets, attendance, body).attendance;
            Mark(tickets, once, body) == Outcome(Reply(200, true, "Already marked present"), once)
  {
    var once := Mark(tickets, attendance, body).attendance;
    var ticketId := Get(body.value, "ticket_id").value;
    var studId := Get(body.value, "stud_id").value;
    var i := FirstMatch(attendance, ticketId, studId).value;
    assert once == attendance || once == attendance[i := attendance[i].(present := Some(true))];
    SameKeysSameMatch(attendance, once, ticketId, studId);
  }

  /** The query looks only at the ticket and student ids. */
  lemma SameKeysSameMatch(a: seq<Attendance>, b: seq<Attendance>, ticketId: Json, studId: Json)
    requires |a| == |b| && forall k :: 0 <= k < |a| ==> a[k].ticketId == b[k].ticketId && a[k].studId == b[k].studId
    ensures FirstMatch(a, ticketId, studId) == FirstMatch(b, ticketId, studId)
  {
    var p := (x: Attendance) => QueryMatches(x, ticketId, studId);
    forall k | 0 <= k < |a|
      ensures p(a[k]) == p(b[k])
    {
      assert a[k].ticketId == b[k].ticketId && a[k].studId == b[k].studId;
    }
    FirstIndexAgrees(a, b, p, p);
  }

  /** Without a placeholder the request is refused with 404: a ticket
      checked in through this endpoint must have been issued with one. */
  lemma NoPlaceholderNoCheckIn(tickets: seq<Ticket>, attendance: seq<Attendance>, body: Option<Json>)
    requires body.Some? && Get(body.value, "ticket_id").Some? && Get(body.value, "stud_id").Some?
    requires forall k :: 0 <= k < |attendance| ==>
               !QueryMatches(attendance[k], Get(body.value, "ticket_id").value, Get(body.value, "stud_id").value)
    ensures Mark(tickets, attendance, body).attendance == attendance
    ensures Mark(tickets, attendance, body).reply.status in {400, 403, 404, 500}
  {
  }
}
