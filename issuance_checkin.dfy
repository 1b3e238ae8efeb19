/** How ticket issuance interacts with the two readers of attendance.
    Issuance writes a placeholder record with `present: false` for every
    member (app/api/tickets/generate/route.ts), while the door scan
    (app/api/tickets/scan/route.ts) and the record-per-check-in endpoint
    (app/api/tickets/mark-attendance/route.ts) treat the existence of any
    record as presence.  So a freshly issued ticket reads as fully checked
    in before anyone arrives. */
module IssuanceCheckIn {
  import opened Common
  import opened Json
  import opened Entities
  import opened Schemas
  import Generate
  import Scan
  import MarkAttendance

  function ScanBody(ticketId: string, eventId: string): Json {
    JObj([Member("ticket_id", JStr(ticketId)), Member("event_id", JStr(eventId))])
  }

  function MarkBody(ticketId: string, studId: string, eventId: string): Json {
    JObj([Member("ticket_id", JStr(ticketId)), Member("stud_id", JStr(studId)), Member("event_id", JStr(eventId))])
  }

  /** After issuance the new ticket is what a lookup of its id returns. */
  lemma NewTicketFound(tickets: seq<Ticket>, t: Ticket)
    requires forall k :: 0 <= k < |tickets| ==> tickets[k].id != t.id
    ensures GetTicket(tickets + [t], t.id) == Some(t)
  {
    var all := tickets + [t];
    assert all[|tickets|] == t;
    var found := GetTicket(all, t.id).value;
    assert found in all;
    var m :| 0 <= m < |all| && all[m] == found;
    assert m == |tickets|;
  }

  /** Each member of the new ticket has a record for the ticket and event. */
  lemma PlaceholderIsRecord(attendance: seq<Attendance>, eventId: string, ticketId: string, ids: seq<string>, i: nat)
    requires i < |ids|
    ensures HasRecord(attendance + Generate.Placeholders(eventId, ticketId, ids), ticketId, ids[i], eventId)
  {
    var all := attendance + Generate.Placeholders(eventId, ticketId, ids);
    assert Matches(all[|attendance| + i], ticketId, ids[i], eventId);
  }

  /** Scanning a ticket whose placeholders were written reports every
      member as present. */
  lemma ScanSeesPlaceholders(tickets: seq<Ticket>, attendance: seq<Attendance>, eventId: string, newId: string, ids: seq<string>,
                             exposesErrors: bool)
    requires eventId != "" && newId != ""
    requires forall k :: 0 <= k < |tickets| ==> tickets[k].id != newId
    ensures var scan := Scan.Scan(tickets + [Ticket(newId, eventId, StudList(ids), None, true)],
                                  attendance + Generate.Placeholders(eventId, newId, ids),
                                  Some(ScanBody(newId, eventId)), exposesErrors);
            scan.reply.status == 200 && |scan.members| == |ids| &&
            forall i :: 0 <= i < |scan.members| ==> scan.members[i].present
  {
    var sb := ScanBody(newId, eventId);
    LookupDistinct(sb.members, 0);
    LookupDistinct(sb.members, 1);
    assert ParseScanTicket(sb) == Pass(ScanRequest(newId, eventId));
    var t := Ticket(newId, eventId, StudList(ids), None, true);
    NewTicketFound(tickets, t);
    forall i | 0 <= i < |ids|
      ensures HasRecord(attendance + Generate.Placeholders(eventId, newId, ids), newId, ids[i], eventId)
    {
      PlaceholderIsRecord(attendance, eventId, newId, ids, i);
    }
  }

  /** Right after issuance, scanning the new ticket reports every member as
      present. */
  lemma IssuedTicketScansAllPresent(tickets: seq<Ticket>, attendance: seq<Attendance>, users: seq<User>,
                                    body: Json, newId: string, exposesErrors: bool)
    requires ParseGenerateTicket(body).Pass? && newId != ""
    requires forall k :: 0 <= k < |tickets| ==> tickets[k].id != newId
    ensures var o := Generate.Issue(tickets, attendance, users, Some(body), newId, exposesErrors);
            var req := ParseGenerateTicket(body).value;
            var scan := Scan.Scan(o.tickets, o.attendance, Some(ScanBody(newId, req.eventId)), exposesErrors);
            scan.reply.status == 200 &&
            |scan.members| == |req.studIds| &&
            forall i :: 0 <= i < |scan.members| ==> scan.members[i].present
  {
    var req := ParseGenerateTicket(body).value;
    ScanSeesPlaceholders(tickets, attendance, req.eventId, newId, req.studIds, exposesErrors);
  }

  /** Right after issuance, checking in any member with a non-empty id
      answers "Already marked present" and writes nothing. */
  lemma IssuedMemberAlreadyPresent(tickets: seq<Ticket>, attendance: seq<Attendance>, users: seq<User>,
                                   body: Json, newId: string, i: nat, exposesErrors: bool)
    requires ParseGenerateTicket(body).Pass? && newId != ""
    requires forall k :: 0 <= k < |tickets| ==> tickets[k].id != newId
    requires i < |ParseGenerateTicket(body).value.studIds| && ParseGenerateTicket(body).value.studIds[i] != ""
    ensures var o := Generate.Issue(tickets, attendance, users, Some(body), newId, exposesErrors);
            var req := ParseGenerateTicket(body).value;
            MarkAttendance.Mark(o.tickets, o.attendance, Some(MarkBody(newId, req.studIds[i], req.eventId)), exposesErrors)
              == MarkAttendance.Outcome(Reply(200, true, "Already marked present"), o.attendance)
  {
    var o := Generate.Issue(tickets, attendance, users, Some(body), newId, exposesErrors);
    var req := ParseGenerateTicket(body).value;
    var mb := MarkBody(newId, req.studIds[i], req.eventId);
    LookupDistinct(mb.members, 0);
    LookupDistinct(mb.members, 1);
    LookupDistinct(mb.members, 2);
    NewTicketFound(tickets, Ticket(newId, req.eventId, StudList(req.studIds), None, true));
    PlaceholderIsRecord(attendance, req.eventId, newId, req.studIds, i);
  }
}
