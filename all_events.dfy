/** The overview of every event for a coordinator
    (app/api/coordinator/all-events/route.ts): per event, the number of
    tickets, of participants, of check-ins, of free slots and of members not
    yet checked in.  The three listings are truncated at the limits the
    handler passes (100 events, 1000 tickets, 2000 attendance records).
    Every collection is kept in creation order, oldest first, as the
    handlers that create documents append them; the event listing asks for
    `$createdAt` descending, so it is the newest 100 events, newest first. */
module AllEvents {
  import opened Common
  import opened Entities

  const EventLimit: nat := 100
  const TicketLimit: nat := 1000
  const AttendanceLimit: nat := 2000

  /** What one ticket adds to `total_participants` here: the length of a
      non-empty list, 1 for a non-empty scalar id, 0 otherwise. */
  function Headcount(f: StudField): nat {
    match f
    case NoStud => 0
    case StudList(ids) => |ids|
    case OneStud(id) => if id != "" then 1 else 0
  }

  /** `total_participants` over the event's tickets. */
  function Participants(tickets: seq<Ticket>): nat {
    if tickets == [] then 0
    else Participants(tickets[..|tickets| - 1]) + Headcount(tickets[|tickets| - 1].studId)
  }

  /** The accumulator loop over the event's tickets. */
  method CountParticipants(tickets: seq<Ticket>) returns (total: nat)
    ensures total == Participants(tickets)
  {
    total := 0;
    var i := 0;
    while i < |tickets|
      invariant 0 <= i <= |tickets|
      invariant total == Participants(tickets[..i])
    {
      assert tickets[..i + 1][..i] == tickets[..i];
      var studIds := tickets[i].studId;
      if studIds.StudList? && |studIds.ids| > 0 {
        total := total + |studIds.ids|;
      } else if studIds.OneStud? && studIds.id != "" {
        total := total + 1;
      }
      i := i + 1;
    }
    assert tickets[..i] == tickets;
  }

  /** `eventData.slots || 0` */
  function TotalSlots(e: Event): int {
    if e.slots.Some? && e.slots.value != 0 then e.slots.value else 0
  }

  datatype EventRow = EventRow(
    id: string,
    name: string,
    category: string,
    venue: string,
    date: string,
    time: string,
    completed: bool,
    slots: int,
    remainingSlots: int,
    totalRegistrations: nat,
    totalParticipants: nat,
    checkedIn: nat,
    notCheckedIn: int)

  /** The output record of one event, from the truncated ticket and
      attendance listings. */
  function Stats(e: Event, tickets: seq<Ticket>, attendance: seq<Attendance>): (r: EventRow)
    ensures r.id == e.id && r.slots == TotalSlots(e)
    ensures r.totalRegistrations == |TicketsOf(tickets, e.id)|
    ensures r.totalParticipants == Participants(TicketsOf(tickets, e.id))
    ensures r.checkedIn == |AttendanceOf(attendance, e.id)|
    ensures r.remainingSlots == Max(0, r.slots - r.totalRegistrations)
    ensures 0 <= r.remainingSlots && (r.slots >= 0 ==> r.remainingSlots <= r.slots)
    ensures r.notCheckedIn == r.totalParticipants - r.checkedIn
  {
    var eventTickets := TicketsOf(tickets, e.id);
    var checkedIn := |AttendanceOf(attendance, e.id)|;
    var participants := Participants(eventTickets);
    var slots := TotalSlots(e);
    EventRow(e.id, e.name, OrElse(e.category, ""), OrElse(e.venue, ""), OrElse(e.date, ""),
             OrElse(e.time, ""), e.completed, slots, Max(0, slots - |eventTickets|),
             |eventTickets|, participants, checkedIn, participants - checkedIn)
  }

  /** The event listing `[Query.limit(100), Query.orderDesc('$createdAt')]`
      over a collection kept oldest first: the newest `EventLimit` events,
      newest first. */
  function Listed(events: seq<Event>): (r: seq<Event>)
    ensures |r| == Min(|events|, EventLimit)
    ensures forall i :: 0 <= i < |r| ==> r[i] == events[|events| - 1 - i]
  {
    Take(Reverse(events), EventLimit)
  }

  /** With more than `EventLimit` events the listing is exactly the newest
      `EventLimit` of them, newest first: the older ones are not listed. */
  lemma NewestOnly(events: seq<Event>)
    requires |events| >= EventLimit
    ensures Listed(events) == Reverse(events[|events| - EventLimit..])
  {
    var newest := events[|events| - EventLimit..];
    var r := Reverse(newest);
    forall i | 0 <= i < EventLimit
      ensures Listed(events)[i] == r[i]
    {
      assert r[i] == newest[EventLimit - 1 - i];
    }
  }

  /** `GET /api/coordinator/all-events`; `session` is the `coord_session`
      cookie. */
  method Get(session: Option<string>, events: seq<Event>, tickets: seq<Ticket>, attendance: seq<Attendance>)
    returns (reply: Reply, rows: seq<EventRow>)
    ensures !Truthy(session) ==> reply == Reply(401, false, "Not authenticated as coordinator") && rows == []
    ensures Truthy(session) ==> reply.status == 200
    ensures Truthy(session) ==>
              var listed := Listed(events);
              |rows| == |listed| &&
              forall i :: 0 <= i < |rows| ==> rows[i] == Stats(listed[i], Take(tickets, TicketLimit), Take(attendance, AttendanceLimit))
  {
    if !Truthy(session) {
      return Reply(401, false, "Not authenticated as coordinator"), [];
    }
    var listed := Listed(events);
    var allTickets := Take(tickets, TicketLimit);
    var allAttendance := Take(attendance, AttendanceLimit);
    rows := [];
    var i := 0;
    while i < |listed|
      invariant 0 <= i <= |listed| && |rows| == i
      invariant forall k :: 0 <= k < i ==> rows[k] == Stats(listed[k], allTickets, allAttendance)
    {
      var e := listed[i];
      var eventTickets := TicketsOf(allTickets, e.id);
      var participants := CountParticipants(eventTickets);
      var checkedIn := |AttendanceOf(allAttendance, e.id)|;
      var slots := TotalSlots(e);
      var row := EventRow(e.id, e.name, OrElse(e.category, ""), OrElse(e.venue, ""), OrElse(e.date, ""),
                          OrElse(e.time, ""), e.completed, slots, Max(0, slots - |eventTickets|),
                          |eventTickets|, participants, checkedIn, participants - checkedIn);
      assert row == Stats(e, allTickets, allAttendance);
      rows := rows + [row];
      i := i + 1;
    }
    reply := Reply(200, true, "");
  }

  // ------------------------------------------------------------- properties

  /** The participant total is additive over ticket lists. */
  lemma {:induction false} ParticipantsAppend(a: seq<Ticket>, b: seq<Ticket>)
    ensures Participants(a + b) == Participants(a) + Participants(b)
    decreases |b|
  {
    if b == [] {
      assert a + b == a;
    } else {
      assert (a + b)[..|a + b| - 1] == a + b[..|b| - 1];
      ParticipantsAppend(a, b[..|b| - 1]);
    }
  }

  /** `not_checked_in_participants` has no floor: two check-in records for
      a one-member ticket give -1. */
  lemma NotCheckedInCanBeNegative(e: Event, t: Ticket, a1: Attendance, a2: Attendance)
    requires t.eventId == e.id && t.studId == StudList(["s1"])
    requires a1.eventId == e.id && a2.eventId == e.id
    ensures Stats(e, [t], [a1, a2]).notCheckedIn == -1
  {
    var ofTicket := (x: Ticket) => x.eventId == e.id;
    var ofRecord := (x: Attendance) => x.eventId == e.id;
    assert [t][1..] == [];
    assert Filter([t], ofTicket) == [t];
    assert [a1, a2][1..] == [a2] && [a2][1..] == [];
    assert Filter([a2], ofRecord) == [a2];
    assert Filter([a1, a2], ofRecord) == [a1, a2];
    assert Participants([t]) == Participants([t][..0]) + Headcount(t.studId);
  }
}
