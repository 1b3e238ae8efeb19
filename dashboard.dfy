/** The per-event dashboard of a coordinator
    (app/api/coordinator/dashboard/route.ts).  The event is named by its
    business id in the `x-event-id` header; tickets and attendance records
    refer to the event's document id. */
module Dashboard {
  import opened Common
  import opened Entities
  import AllEvents

  datatype Stats = Stats(
    eventId: string,
    eventName: string,
    completed: bool,
    totalRegistrations: nat,
    totalParticipants: nat,
    checkedIn: nat,
    notCheckedIn: int)

  /** `ticket.stud_id?.length ?? 0`: the length of a list, and the length of
      the STRING, in UTF-16 code units, for a scalar id. */
  function Length(f: StudField): nat {
    match f
    case NoStud => 0
    case OneStud(id) => Utf16Length(id)
    case StudList(ids) => |ids|
  }

  function TotalLength(tickets: seq<Ticket>): nat {
    if tickets == [] then 0
    else TotalLength(tickets[..|tickets| - 1]) + Length(tickets[|tickets| - 1].studId)
  }

  /** The accumulator loop over the event's tickets. */
  method SumLengths(tickets: seq<Ticket>) returns (total: nat)
    ensures total == TotalLength(tickets)
  {
    total := 0;
    var i := 0;
    while i < |tickets|
      invariant 0 <= i <= |tickets|
      invariant total == TotalLength(tickets[..i])
    {
      assert tickets[..i + 1][..i] == tickets[..i];
      total := total + Length(tickets[i].studId);
      i := i + 1;
    }
    assert tickets[..i] == tickets;
  }

  /** `GET /api/coordinator/dashboard`; `header` is `x-event-id`. */
  method Get(header: Option<string>, events: seq<Event>, tickets: seq<Ticket>, attendance: seq<Attendance>)
    returns (reply: Reply, stats: Option<Stats>)
    ensures !Truthy(header) ==> reply == Reply(401, false, "Event ID missing") && stats.None?
    ensures Truthy(header) && EventByBusinessId(events, header.value).None? ==>
              reply == Reply(404, false, "Event not found") && stats.None?
    ensures reply.status == 200 <==> Truthy(header) && EventByBusinessId(events, header.value).Some?
    ensures reply.status == 200 ==>
              var e := EventByBusinessId(events, header.value).value;
              var eventTickets := TicketsOf(tickets, e.id);
              stats.Some? && stats.value.eventId == header.value && stats.value.eventName == e.name &&
              stats.value.completed == e.completed &&
              stats.value.totalRegistrations == |eventTickets| &&
              stats.value.totalParticipants == TotalLength(eventTickets) &&
              stats.value.checkedIn == |AttendanceOf(attendance, e.id)| &&
              stats.value.notCheckedIn == stats.value.totalParticipants - stats.value.checkedIn
  {
    if !Truthy(header) {
      return Reply(401, false, "Event ID missing"), None;
    }
    var found := EventByBusinessId(events, header.value);
    if found.None? {
      return Reply(404, false, "Event not found"), None;
    }
    var e := found.value;
    var eventTickets := TicketsOf(tickets, e.id);
    var participants := SumLengths(eventTickets);
    var checkedIn := |AttendanceOf(attendance, e.id)|;
    stats := Some(Stats(e.eventId, e.name, e.completed, |eventTickets|, participants, checkedIn,
                        participants - checkedIn));
    reply := Reply(200, true, "");
  }

  // ------------------------------------------------------------- properties

  /** For tickets whose membership is a list or absent, the dashboard and
      the all-events overview count the same participants. */
  lemma {:induction false} AgreesWithoutScalars(tickets: seq<Ticket>)
    requires forall i :: 0 <= i < |tickets| ==> !tickets[i].studId.OneStud?
    ensures TotalLength(tickets) == AllEvents.Participants(tickets)
  {
    if tickets != [] {
      AgreesWithoutScalars(tickets[..|tickets| - 1]);
    }
  }

  /** A scalar member id counts its string length here and one in the
      overview: a ticket with the id "abc" counts 3 and 1. */
  lemma ScalarCountsDiffer(t: Ticket)
    requires t.studId == OneStud("abc")
    ensures TotalLength([t]) == 3 && AllEvents.Participants([t]) == 1
  {
    assert [t][..0] == [];
  }

  /** A scalar id counts UTF-16 code units: one character above U+FFFF
      counts two. */
  lemma AstralScalarCountsTwo(t: Ticket)
    requires t.studId == OneStud("\U{1F600}")
    ensures TotalLength([t]) == 2
  {
    assert [t][..0] == [];
    assert Utf16Length("\U{1F600}") == Utf16Length([]) + 2;
  }
}
