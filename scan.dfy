/** Scanning a ticket at the door (app/api/tickets/scan/route.ts): a
    read-only report of the ticket's members and, for each, whether an
    attendance record exists.  It writes nothing and does not refuse an
    inactive ticket; it reports the ticket's `active` flag. */
module Scan {
  import opened Common
  import opened Json
  import opened Entities
  import opened Schemas

  datatype MemberStatus = MemberStatus(studId: string, present: bool)

  datatype ScanResult = ScanResult(
    reply: Reply,
    ticketActive: Option<bool>,
    eventId: Option<string>,
    members: seq<MemberStatus>)

  const Failure := Reply(500, false, "Invalid or expired ticket")

  /** `ticket.stud_id || []` as the list the handler maps over: a missing or
      empty value gives [], a list gives itself, and a non-empty scalar id
      has no `map` method, so the call throws (`None`). */
  function MemberIds(f: StudField): (r: Option<seq<string>>)
    ensures f.NoStud? ==> r == Some([])
    ensures f.StudList? ==> r == Some(f.ids)
    ensures f.OneStud? ==> (r.None? <==> f.id != "") && (r.Some? ==> r.value == [])
  {
    match f
    case NoStud => Some([])
    case OneStud(id) => if id == "" then Some([]) else None
    case StudList(ids) => Some(ids)
  }

  /** One status per member, in member order. */
  function Statuses(attendance: seq<Attendance>, ids: seq<string>, ticketId: string, eventId: string): (r: seq<MemberStatus>)
    ensures |r| == |ids|
    ensures forall i :: 0 <= i < |ids| ==> r[i].studId == ids[i]
    ensures forall i :: 0 <= i < |ids| ==> (r[i].present <==> HasRecord(attendance, ticketId, ids[i], eventId))
  {
    if ids == [] then []
    else [MemberStatus(ids[0], HasRecord(attendance, ticketId, ids[0], eventId))]
         + Statuses(attendance, ids[1..], ticketId, eventId)
  }

  /** `POST /api/tickets/scan`; `body` is `None` when it is not JSON and
      `exposesErrors` is as in `Schemas.Refused`. */
  function Scan(tickets: seq<Ticket>, attendance: seq<Attendance>, body: Option<Json>, exposesErrors: bool): (r: ScanResult)
    ensures r.reply.status in {200, 400, 403, 500}
    ensures r.reply.status == 400 <==> exposesErrors && body.Some? && ParseScanTicket(body.value).Fail?
    ensures r.reply.status == 200 <==>
              body.Some? && ParseScanTicket(body.value).Pass? &&
              var req := ParseScanTicket(body.value).value;
              GetTicket(tickets, req.ticketId).Some? &&
              GetTicket(tickets, req.ticketId).value.eventId == req.eventId &&
              MemberIds(GetTicket(tickets, req.ticketId).value.studId).Some?
    ensures r.reply.status == 200 ==>
              var req := ParseScanTicket(body.value).value;
              var ticket := GetTicket(tickets, req.ticketId).value;
              var ids := MemberIds(ticket.studId).value;
              r.ticketActive == Some(ticket.active) && r.eventId == Some(ticket.eventId) &&
              |r.members| == |ids| &&
              (forall i :: 0 <= i < |ids| ==> r.members[i].studId == ids[i]) &&
              (forall i :: 0 <= i < |ids| ==> (r.members[i].present <==> HasRecord(attendance, req.ticketId, ids[i], req.eventId)))
    ensures r.reply.status == 403 ==> r.reply.message == "Ticket does not belong to this event"
    ensures r.reply.status != 200 ==> r.members == [] && r.ticketActive.None?
  {
    if body.None? then ScanResult(Failure, None, None, [])
    else match ParseScanTicket(body.value)
      case Fail(issue) => ScanResult(Refused(issue, exposesErrors, Failure), None, None, [])
      case Pass(req) =>
        match GetTicket(tickets, req.ticketId)
        case None => ScanResult(Failure, None, None, [])
        case Some(ticket) =>
          if ticket.eventId != req.eventId then
            ScanResult(Reply(403, false, "Ticket does not belong to this event"), None, None, [])
          else match MemberIds(ticket.studId)
            case None => ScanResult(Failure, None, None, [])
            case Some(ids) =>
              ScanResult(Reply(200, true, ""), Some(ticket.active), Some(ticket.eventId),
                         Statuses(attendance, ids, req.ticketId, req.eventId))
  }

  /** A ticket written with a single non-empty scalar member id cannot be
      scanned: the request fails with 500 even though the ticket exists and
      belongs to the event. */
  lemma ScalarMemberFails(tickets: seq<Ticket>, attendance: seq<Attendance>, body: Json, exposesErrors: bool)
    requires tickets == [Ticket("t1", "e1", OneStud("s1"), None, true)]
    requires body == JObj([Member("ticket_id", JStr("t1")), Member("event_id", JStr("e1"))])
    ensures Scan(tickets, attendance, Some(body), exposesErrors).reply == Failure
  {
    LookupDistinct(body.members, 0);
    LookupDistinct(body.members, 1);
    assert GetTicket(tickets, "t1") == Some(tickets[0]);
  }
}
