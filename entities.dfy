/** The documents of the check-in platform and the primary document store
    that the route handlers read and write.  Every field a handler inspects is
    present; a field the documents may lack is an `Option`. */
module Entities {
  import opened Common
  import Json

  /** The membership field `stud_id` of a ticket.  Tickets written by issuance
      hold a list; older tickets hold a single scalar id or nothing at all. */
  datatype StudField = NoStud | OneStud(id: string) | StudList(ids: seq<string>)

  /** An event document.  `id` is the store's document id ($id); `eventId`
      is the human-facing business id that coordinators log in with. */
  datatype Event = Event(
    id: string,
    eventId: string,
    name: string,
    eventPass: Option<string>,
    category: Option<string>,
    venue: Option<string>,
    date: Option<string>,
    time: Option<string>,
    slot: Option<string>,
    slots: Option<int>,
    completed: bool,
    winners: Option<string>)

  /** A ticket document; `eventId` holds the event's document id. */
  datatype Ticket = Ticket(
    id: string,
    eventId: string,
    studId: StudField,
    teamName: Option<string>,
    active: bool)

  /** An attendance document.  Records created by a check-in carry no
      `present` field; placeholders created at issuance carry `present: false`. */
  datatype Attendance = Attendance(
    eventId: string,
    ticketId: string,
    studId: string,
    present: Option<bool>)

  /** A student (user) document.  `tickets` is `None` when the stored value
      is not an array. */
  datatype User = User(
    id: string,
    name: Option<string>,
    email: Option<string>,
    phone: Option<string>,
    phno: Option<string>,
    college: Option<string>,
    studId: Option<string>,
    pass: string,
    tickets: Option<seq<string>>,
    certificates: Option<seq<string>>)

  function EventIndex(events: seq<Event>, id: string): (r: Option<nat>)
    ensures r.Some? ==> r.value < |events| && events[r.value].id == id
    ensures r.None? <==> forall j :: 0 <= j < |events| ==> events[j].id != id
  {
    FirstIndex(events, (e: Event) => e.id == id)
  }

  function TicketIndex(tickets: seq<Ticket>, id: string): (r: Option<nat>)
    ensures r.Some? ==> r.value < |tickets| && tickets[r.value].id == id
    ensures r.None? <==> forall j :: 0 <= j < |tickets| ==> tickets[j].id != id
  {
    FirstIndex(tickets, (t: Ticket) => t.id == id)
  }

  function UserIndex(users: seq<User>, id: string): (r: Option<nat>)
    ensures r.Some? ==> r.value < |users| && users[r.value].id == id
    ensures r.None? <==> forall j :: 0 <= j < |users| ==> users[j].id != id
  {
    FirstIndex(users, (u: User) => u.id == id)
  }

  /** `getDocument` on the tickets collection; a missing id makes it throw. */
  function GetTicket(tickets: seq<Ticket>, id: string): (r: Option<Ticket>)
    ensures r.Some? <==> exists j :: 0 <= j < |tickets| && tickets[j].id == id
    ensures r.Some? ==> r.value in tickets && r.value.id == id
  {
    match TicketIndex(tickets, id)
    case None => None
    case Some(i) => Some(tickets[i])
  }

  /** `getDocument` on the events collection. */
  function GetEvent(events: seq<Event>, id: string): (r: Option<Event>)
    ensures r.Some? <==> exists j :: 0 <= j < |events| && events[j].id == id
    ensures r.Some? ==> r.value in events && r.value.id == id
  {
    match EventIndex(events, id)
    case None => None
    case Some(i) => Some(events[i])
  }

  /** The first event whose business id matches (`listDocuments` with
      `Query.equal("event_id", ...)` followed by `documents[0]`). */
  function EventByBusinessId(events: seq<Event>, businessId: string): (r: Option<Event>)
    ensures r.Some? <==> exists j :: 0 <= j < |events| && events[j].eventId == businessId
    ensures r.Some? ==> r.value in events && r.value.eventId == businessId
  {
    match FirstIndex(events, (e: Event) => e.eventId == businessId)
    case None => None
    case Some(i) => Some(events[i])
  }

  /** The values `Query.equal(attribute, v)` sends: the items of an array,
      any other value on its own. */
  function EqualValues(v: Json.Json): seq<Json.Json> {
    if v.JArr? then v.items else [v]
  }

  /** A stored string satisfies `Query.equal(attribute, v)` when it equals
      one of the values sent; a value of another type matches nothing.  A
      query with no values at all (an empty array) is refused by the store,
      so the handlers treat it as a failed read. */
  predicate EqualMatches(stored: string, v: Json.Json) {
    Json.JStr(stored) in EqualValues(v)
  }

  /** `listDocuments` on the events with `Query.equal("event_id", v)`
      followed by `documents[0]`, for a request value `v` of any type: a
      string finds the event with that business id, an array the first
      event whose business id is one of its items. */
  function EventByEqual(events: seq<Event>, v: Json.Json): (r: Option<Event>)
    ensures v.JStr? ==> r == EventByBusinessId(events, v.s)
    ensures r.Some? ==> r.value in events && EqualMatches(r.value.eventId, v)
    ensures r.None? <==> forall k :: 0 <= k < |events| ==> !EqualMatches(events[k].eventId, v)
  {
    if v.JStr? then EventByBusinessId(events, v.s)
    else match FirstIndex(events, (e: Event) => EqualMatches(e.eventId, v))
      case None => None
      case Some(i) => Some(events[i])
  }

  /** The tickets whose event reference is `eventId`, in store order. */
  function TicketsOf(tickets: seq<Ticket>, eventId: string): (r: seq<Ticket>)
    ensures forall i :: 0 <= i < |r| ==> r[i].eventId == eventId && r[i] in tickets
    ensures forall i :: 0 <= i < |tickets| && tickets[i].eventId == eventId ==> tickets[i] in r
  {
    Filter(tickets, (t: Ticket) => t.eventId == eventId)
  }

  /** The attendance records whose event reference is `eventId`. */
  function AttendanceOf(attendance: seq<Attendance>, eventId: string): (r: seq<Attendance>)
    ensures forall i :: 0 <= i < |r| ==> r[i].eventId == eventId && r[i] in attendance
    ensures forall i :: 0 <= i < |attendance| && attendance[i].eventId == eventId ==> attendance[i] in r
  {
    Filter(attendance, (a: Attendance) => a.eventId == eventId)
  }

  /** The record is for this ticket, student and event. */
  predicate Matches(a: Attendance, ticketId: string, studId: string, eventId: string) {
    a.ticketId == ticketId && a.studId == studId && a.eventId == eventId
  }

  /** The attendance query on ticket, student and event returns a record. */
  predicate HasRecord(attendance: seq<Attendance>, ticketId: string, studId: string, eventId: string) {
    exists i :: 0 <= i < |attendance| && Matches(attendance[i], ticketId, studId, eventId)
  }

  /** The student ids of the given attendance records, as the participant
      listings collect them into their `checkedInSet`. */
  function CheckedInIds(records: seq<Attendance>): (r: set<string>)
    ensures forall x :: x in r <==> exists k :: 0 <= k < |records| && records[k].studId == x
  {
    if records == [] then {}
    else CheckedInIds(records[..|records| - 1]) + {records[|records| - 1].studId}
  }

  predicate DistinctTicketIds(tickets: seq<Ticket>) {
    forall i, j :: 0 <= i < j < |tickets| ==> tickets[i].id != tickets[j].id
  }

  predicate DistinctUserIds(users: seq<User>) {
    forall i, j :: 0 <= i < j < |users| ==> users[i].id != users[j].id
  }

  predicate DistinctEventIds(events: seq<Event>) {
    forall i, j :: 0 <= i < j < |events| ==> events[i].id != events[j].id
  }

  /** The primary (authoritative) document store.  Every write of the
      platform goes here; each collection is a sequence of documents in store
      order, and the document ids of a collection are distinct. */
  class Backend {
    var events: seq<Event>
    var tickets: seq<Ticket>
    var attendance: seq<Attendance>
    var users: seq<User>

    ghost predicate Valid()
      reads this
    {
      DistinctEventIds(events) && DistinctTicketIds(tickets) && DistinctUserIds(users)
    }

    constructor (events: seq<Event>, tickets: seq<Ticket>, attendance: seq<Attendance>, users: seq<User>)
      requires DistinctEventIds(events) && DistinctTicketIds(tickets) && DistinctUserIds(users)
      ensures Valid()
      ensures this.events == events && this.tickets == tickets
      ensures this.attendance == attendance && this.users == users
    {
      this.events := events;
      this.tickets := tickets;
      this.attendance := attendance;
      this.users := users;
    }
  }
}
