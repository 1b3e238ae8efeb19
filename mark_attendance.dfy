/** Check-in by creating one attendance record per (ticket, student, event)
    (app/api/tickets/mark-attendance/route.ts).  The handler checks that the
    ticket belongs to the event, then inserts a record unless one for the
    same triple exists.  It never consults the ticket's member list. */
module MarkAttendance {
  import opened Common
  import opened Json
  import opened Entities
  import opened Schemas

  /** No two records share a (ticket, student, event) triple. */
  predicate OnePerTriple(attendance: seq<Attendance>) {
    forall i, j :: 0 <= i < j < |attendance| ==>
      !Matches(attendance[j], attendance[i].ticketId, attendance[i].studId, attendance[i].eventId)
  }

  const Failure := Reply(500, false, "Failed to mark attendance")

  datatype Outcome = Outcome(reply: Reply, attendance: seq<Attendance>)

  /** The response and the attendance collection after one request.  `body`
      is `None` when the request body is not JSON; `exposesErrors` is as in
      `Schemas.Refused`. */
  function Mark(tickets: seq<Ticket>, attendance: seq<Attendance>, body: Option<Json>, exposesErrors: bool): (o: Outcome)
    ensures o.attendance == attendance || (o.reply.status == 200 && |o.attendance| == |attendance| + 1
                                           && o.attendance[..|attendance|] == attendance)
    ensures o.reply.ok <==> o.reply.status == 200
    ensures o.reply.status in {200, 400, 403, 500}
    ensures o.reply.status == 400 <==> exposesErrors && body.Some? && ParseMarkAttendance(body.value).Fail?
  {
    if body.None? then Outcome(Failure, attendance)
    else match ParseMarkAttendance(body.value)
      case Fail(issue) => Outcome(Refused(issue, exposesErrors, Failure), attendance)
      case Pass(req) =>
        match GetTicket(tickets, req.ticketId)
        case None => Outcome(Failure, attendance)
        case Some(ticket) =>
          if ticket.eventId != req.eventId then
            Outcome(Reply(403, false, "Ticket does not belong to this event"), attendance)
          else if HasRecord(attendance, req.ticketId, req.studId, req.eventId) then
            Outcome(Reply(200, true, "Already marked present"), attendance)
          else
            Outcome(Reply(200, true, "Attendance marked successfully"),
                    attendance + [Attendance(req.eventId, req.ticketId, req.studId, None)])
  }

  /** `POST /api/tickets/mark-attendance` on the primary store. */
  method Post(db: Backend, body: Option<Json>, exposesErrors: bool) returns (reply: Reply)
    modifies db
    ensures reply == Mark(old(db.tickets), old(db.attendance), body, exposesErrors).reply
    ensures db.attendance == Mark(old(db.tickets), old(db.attendance), body, exposesErrors).attendance
    ensures db.events == old(db.events) && db.tickets == old(db.tickets) && db.users == old(db.users)
  {
    if body.None? {
      return Failure;
    }
    var parsed := ParseMarkAttendance(body.value);
    if parsed.Fail? {
      return Refused(parsed.issue, exposesErrors, Failure);
    }
    var req := parsed.value;
    var ticket := GetTicket(db.tickets, req.ticketId);
    if ticket.None? {
      return Failure;
    }
    if ticket.value.eventId != req.eventId {
      return Reply(403, false, "Ticket does not belong to this event");
    }
    var i := 0;
    while i < |db.attendance|
      invariant 0 <= i <= |db.attendance|
      invariant forall k :: 0 <= k < i ==> !Matches(db.attendance[k], req.ticketId, req.studId, req.eventId)
    {
      if Matches(db.attendance[i], req.ticketId, req.studId, req.eventId) {
        assert HasRecord(db.attendance, req.ticketId, req.studId, req.eventId);
        return Reply(200, true, "Already marked present");
      }
      i := i + 1;
    }
    assert !HasRecord(db.attendance, req.ticketId, req.studId, req.eventId);
    db.attendance := db.attendance + [Attendance(req.eventId, req.ticketId, req.studId, None)];
    reply := Reply(200, true, "Attendance marked successfully");
  }

  // ------------------------------------------------------------- properties

  /** Only a well-formed request for a ticket of the requested event can
      write, and it writes exactly the record for its triple, and only when
      no such record exists. */
  lemma WritesOnlyNewTriple(tickets: seq<Ticket>, attendance: seq<Attendance>, body: Option<Json>, exposesErrors: bool)
    ensures var o := Mark(tickets, attendance, body, exposesErrors);
            o.attendance != attendance ==>
              body.Some? && ParseMarkAttendance(body.value).Pass? &&
              var req := ParseMarkAttendance(body.value).value;
              GetTicket(tickets, req.ticketId).Some? &&
              GetTicket(tickets, req.ticketId).value.eventId == req.eventId &&
              !HasRecord(attendance, req.ticketId, req.studId, req.eventId) &&
              o.attendance == attendance + [Attendance(req.eventId, req.ticketId, req.studId, None)] &&
              o.reply.message == "Attendance marked successfully"
  {
  }

  /** A well-formed request for a ticket of the requested event whose
      triple has no record IS recorded, with "Attendance marked
      successfully". */
  lemma OwnedNewTripleIsRecorded(tickets: seq<Ticket>, attendance: seq<Attendance>, body: Json, exposesErrors: bool)
    requires ParseMarkAttendance(body).Pass?
    requires var req := ParseMarkAttendance(body).value;
             GetTicket(tickets, req.ticketId).Some? &&
             GetTicket(tickets, req.ticketId).value.eventId == req.eventId &&
             !HasRecord(attendance, req.ticketId, req.studId, req.eventId)
    ensures var req := ParseMarkAttendance(body).value;
            Mark(tickets, attendance, Some(body), exposesErrors) ==
              Outcome(Reply(200, true, "Attendance marked successfully"),
                      attendance + [Attendance(req.eventId, req.ticketId, req.studId, None)])
  {
  }

  /** Any existing record for the triple, however it came to exist, makes
      the request answer "Already marked present" without a write. */
  lemma RecordedTripleIsAlreadyPresent(tickets: seq<Ticket>, attendance: seq<Attendance>, body: Json, exposesErrors: bool)
    requires ParseMarkAttendance(body).Pass?
    requires var req := ParseMarkAttendance(body).value;
             GetTicket(tickets, req.ticketId).Some? &&
             GetTicket(tickets, req.ticketId).value.eventId == req.eventId &&
             HasRecord(attendance, req.ticketId, req.studId, req.eventId)
    ensures Mark(tickets, attendance, Some(body), exposesErrors) ==
            Outcome(Reply(200, true, "Already marked present"), attendance)
  {
  }

  /** A ticket of another event is refused with 403 and nothing is written. */
  lemma ForeignTicketIsForbidden(tickets: seq<Ticket>, attendance: seq<Attendance>, body: Json, exposesErrors: bool)
    requires ParseMarkAttendance(body).Pass?
    requires var req := ParseMarkAttendance(body).value;
             GetTicket(tickets, req.ticketId).Some? &&
             GetTicket(tickets, req.ticketId).value.eventId != req.eventId
    ensures Mark(tickets, attendance, Some(body), exposesErrors) ==
            Outcome(Reply(403, false, "Ticket does not belong to this event"), attendance)
  {
  }

  /** An unknown ticket makes the document read throw: 500, nothing
      written; so does a body that is not JSON. */
  lemma UnknownTicketFails(tickets: seq<Ticket>, attendance: seq<Attendance>, body: Option<Json>, exposesErrors: bool)
    requires body.None? ||
             (ParseMarkAttendance(body.value).Pass? &&
              GetTicket(tickets, ParseMarkAttendance(body.value).value.ticketId).None?)
    ensures Mark(tickets, attendance, body, exposesErrors) == Outcome(Failure, attendance)
  {
  }

  /** A body the schema refuses gets 400 with the schema's first issue,
      before any store access, when the error carries the `errors` alias;
      without it the handler throws and answers the catch's 500.  Nothing
      is written either way. */
  lemma InvalidBodyIsRejected(tickets: seq<Ticket>, attendance: seq<Attendance>, body: Json, exposesErrors: bool)
    requires ParseMarkAttendance(body).Fail?
    ensures exposesErrors ==>
              Mark(tickets, attendance, Some(body), exposesErrors) ==
              Outcome(Reply(400, false, Message(ParseMarkAttendance(body).issue)), attendance)
    ensures !exposesErrors ==> Mark(tickets, attendance, Some(body), exposesErrors) == Outcome(Failure, attendance)
  {
  }

  /** Any sequence of requests keeps at most one record per triple. */
  lemma KeepsOnePerTriple(tickets: seq<Ticket>, attendance: seq<Attendance>, body: Option<Json>, exposesErrors: bool)
    requires OnePerTriple(attendance)
    ensures OnePerTriple(Mark(tickets, attendance, body, exposesErrors).attendance)
  {
    var o := Mark(tickets, attendance, body, exposesErrors);
    if o.attendance != attendance {
      WritesOnlyNewTriple(tickets, attendance, body, exposesErrors);
      var req := ParseMarkAttendance(body.value).value;
      forall i, j | 0 <= i < j < |o.attendance|
        ensures !Matches(o.attendance[j], o.attendance[i].ticketId, o.attendance[i].studId, o.attendance[i].eventId)
      {
        if j == |attendance| {
          assert o.attendance[i] == attendance[i];
        }
      }
    }
  }

  /** Repeating a request that was recorded answers "Already marked
      present" and writes nothing. */
  lemma RepeatIsIdempotent(tickets: seq<Ticket>, attendance: seq<Attendance>, body: Option<Json>, exposesErrors: bool)
    requires Mark(tickets, attendance, body, exposesErrors).reply.status == 200
    ensures var once := Mark(tickets, attendance, body, exposesErrors).attendance;
            Mark(tickets, once, body, exposesErrors) == Outcome(Reply(200, true, "Already marked present"), once)
  {
    var o := Mark(tickets, attendance, body, exposesErrors);
    var req := ParseMarkAttendance(body.value).value;
    if o.attendance != attendance {
      assert Matches(o.attendance[|attendance|], req.ticketId, req.studId, req.eventId);
    }
  }

  /** The member list of the ticket is not consulted: a student who is not
      on the ticket is recorded as present for it. */
  lemma NonMemberIsRecorded(tickets: seq<Ticket>, attendance: seq<Attendance>, body: Json, exposesErrors: bool)
    requires tickets == [Ticket("t1", "e1", StudList(["s1"]), None, true)] && attendance == []
    requires body == JObj([Member("ticket_id", JStr("t1")), Member("stud_id", JStr("intruder")), Member("event_id", JStr("e1"))])
    ensures Mark(tickets, attendance, Some(body), exposesErrors) ==
            Outcome(Reply(200, true, "Attendance marked successfully"), [Attendance("e1", "t1", "intruder", None)])
  {
    LookupDistinct(body.members, 0);
    LookupDistinct(body.members, 1);
    LookupDistinct(body.members, 2);
    assert GetTicket(tickets, "t1") == Some(tickets[0]);
  }
}
