/** The legacy check-in server (server.js) over its document store: the
    event coordinator's login, the ticket count, the one-shot ticket scan
    that sets a ticket's `usage` flag, the attendance report and the ticket
    list.  Stored fields keep their JSON values, since the store's equality
    queries compare values of any type. */
module LegacyServer {
  import opened Common
  import opened Json

  datatype LegacyEvent = LegacyEvent(eventId: Option<Json>, eventPass: Option<Json>, eventName: Option<Json>)

  datatype LegacyTicket = LegacyTicket(ticketId: Option<Json>, eventId: Option<Json>, usage: Option<Json>,
                                       studentName: Option<Json>)

  /** The store's documents; the scan is the only write. */
  class LegacyStore {
    var events: seq<LegacyEvent>
    var tickets: seq<LegacyTicket>

    constructor (events: seq<LegacyEvent>, tickets: seq<LegacyTicket>)
      ensures this.events == events && this.tickets == tickets
    {
      this.events := events;
      this.tickets := tickets;
    }

    /** `POST /scan` */
    method Scan(body: Json) returns (reply: ScanReply)
      modifies this
      ensures reply == Scanned(old(tickets), body).reply
      ensures tickets == Scanned(old(tickets), body).tickets
      ensures events == old(events)
    {
      var ticketId := Get(body, "ticket_id");
      var eventId := Get(body, "event_id");
      if !TruthyOpt(ticketId) || !TruthyOpt(eventId) {
        return Refused("Ticket ID or Event ID missing");
      }
      var k := TicketMatch(tickets, ticketId.value, eventId.value);
      if k.None? {
        return Refused("Ticket does not belong to this event or does not exist");
      }
      var ticket := tickets[k.value];
      if ticket.usage == Some(JBool(true)) {
        return Refused("Ticket already used");
      }
      tickets := tickets[k.value := ticket.(usage := Some(JBool(true)))];
      return Admitted(ticket.studentName);
    }
  }

  // ---------------------------------------------------------------- login

  datatype LoginReply = LoginReply(status: int, success: bool, message: string,
                                   eventId: Option<Json>, eventName: Option<Json>)

  /** `POST /login` */
  function Login(events: seq<LegacyEvent>, body: Json): (r: LoginReply)
    ensures r.success <==> r.status == 200 && r.eventId.Some?
    ensures r.status in {200, 400}
  {
    var eventId := Get(body, "event_id");
    var eventPass := Get(body, "event_pass");
    if !TruthyOpt(eventId) || !TruthyOpt(eventPass) then
      LoginReply(400, false, "Event ID and Password are required", None, None)
    else match FirstIndex(events, (e: LegacyEvent) => e.eventId == eventId)
      case None => LoginReply(200, false, "Event not found", None, None)
      case Some(k) =>
        if events[k].eventPass != eventPass then LoginReply(200, false, "Wrong password", None, None)
        else LoginReply(200, true, "", eventId, events[k].eventName)
  }

  // ---------------------------------------------------------------- count

  /** The tickets whose `event_id` is the path parameter. */
  function OfEvent(tickets: seq<LegacyTicket>, eventId: string): (r: seq<LegacyTicket>)
    ensures |r| <= |tickets|
    ensures forall k :: 0 <= k < |r| ==> r[k] in tickets && r[k].eventId == Some(JStr(eventId))
    ensures forall k :: 0 <= k < |tickets| && tickets[k].eventId == Some(JStr(eventId)) ==> tickets[k] in r
  {
    if tickets == [] then []
    else
      var last := tickets[|tickets| - 1];
      var r := OfEvent(tickets[..|tickets| - 1], eventId) + (if last.eventId == Some(JStr(eventId)) then [last] else []);
      assert forall k :: 0 <= k < |tickets| - 1 ==> tickets[k] == tickets[..|tickets| - 1][k];
      r
  }

  /** `GET /count/:event_id` */
  function Count(tickets: seq<LegacyTicket>, eventId: string): (n: nat)
    ensures n <= |tickets|
  {
    |OfEvent(tickets, eventId)|
  }

  // ----------------------------------------------------------------- scan

  datatype ScanReply = Refused(message: string) | Admitted(studentName: Option<Json>)

  datatype ScanOutcome = ScanOutcome(reply: ScanReply, tickets: seq<LegacyTicket>)

  predicate Used(t: LegacyTicket) {
    t.usage == Some(JBool(true))
  }

  /** `.where("ticket_id", "==", …).where("event_id", "==", …)` then
      `docs[0]`. */
  function TicketMatch(tickets: seq<LegacyTicket>, ticketId: Json, eventId: Json): (r: Option<nat>)
    ensures r.Some? ==> r.value < |tickets| && tickets[r.value].ticketId == Some(ticketId) &&
                        tickets[r.value].eventId == Some(eventId)
    ensures r.Some? ==> forall j :: 0 <= j < r.value ==> !(tickets[j].ticketId == Some(ticketId) && tickets[j].eventId == Some(eventId))
    ensures r.None? <==> forall j :: 0 <= j < |tickets| ==> !(tickets[j].ticketId == Some(ticketId) && tickets[j].eventId == Some(eventId))
  {
    FirstIndex(tickets, (t: LegacyTicket) => t.ticketId == Some(ticketId) && t.eventId == Some(eventId))
  }

  /** `POST /scan` on the ticket list. */
  function Scanned(tickets: seq<LegacyTicket>, body: Json): (o: ScanOutcome)
    ensures |o.tickets| == |tickets|
    ensures o.reply.Refused? ==> o.tickets == tickets
    ensures o.reply.Admitted? ==>
              TruthyOpt(Get(body, "ticket_id")) && TruthyOpt(Get(body, "event_id")) &&
              TicketMatch(tickets, Get(body, "ticket_id").value, Get(body, "event_id").value).Some? &&
              var k := TicketMatch(tickets, Get(body, "ticket_id").value, Get(body, "event_id").value).value;
              !Used(tickets[k]) && o.tickets == tickets[k := tickets[k].(usage := Some(JBool(true)))] &&
              o.reply.studentName == tickets[k].studentName
  {
    var ticketId := Get(body, "ticket_id");
    var eventId := Get(body, "event_id");
    if !TruthyOpt(ticketId) || !TruthyOpt(eventId) then ScanOutcome(Refused("Ticket ID or Event ID missing"), tickets)
    else match TicketMatch(tickets, ticketId.value, eventId.value)
      case None => ScanOutcome(Refused("Ticket does not belong to this event or does not exist"), tickets)
      case Some(k) =>
        if Used(tickets[k]) then ScanOutcome(Refused("Ticket already used"), tickets)
        else ScanOutcome(Admitted(tickets[k].studentName), tickets[k := tickets[k].(usage := Some(JBool(true)))])
  }

  // ----------------------------------------------------------- attendance

  /** A name as it appears in the report: a missing `student_name` is
      `undefined`, which the JSON array shows as `null`. */
  function NameOf(t: LegacyTicket): Json {
    if t.studentName.Some? then t.studentName.value else JNull
  }

  /** The report of `GET /attendance/:event_id`: the names of the event's
      used tickets, in store order. */
  function Report(tickets: seq<LegacyTicket>, eventId: string): (r: seq<Json>)
    ensures |r| <= |tickets|
    ensures forall x :: x in r <==> exists k :: 0 <= k < |tickets| && tickets[k].eventId == Some(JStr(eventId)) &&
                                              Used(tickets[k]) && NameOf(tickets[k]) == x
  {
    if tickets == [] then []
    else
      var prefix := tickets[..|tickets| - 1];
      var last := tickets[|tickets| - 1];
      assert forall k :: 0 <= k < |prefix| ==> prefix[k] == tickets[k];
      Report(prefix, eventId) + (if last.eventId == Some(JStr(eventId)) && Used(last) then [NameOf(last)] else [])
  }

  /** `snapshot.forEach(doc => students.push(doc.data().student_name))` */
  method Attendance(tickets: seq<LegacyTicket>, eventId: string) returns (students: seq<Json>)
    ensures students == Report(tickets, eventId)
  {
    students := [];
    var i := 0;
    while i < |tickets|
      invariant 0 <= i <= |tickets|
      invariant students == Report(tickets[..i], eventId)
    {
      assert tickets[..i + 1][..i] == tickets[..i];
      var t := tickets[i];
      if t.eventId == Some(JStr(eventId)) && t.usage == Some(JBool(true)) {
        students := students + [NameOf(t)];
      }
      i := i + 1;
    }
    assert tickets[..i] == tickets;
  }

  /** `GET /tickets/:event_id`: every ticket of the event, pushed one by
      one. */
  method TicketList(tickets: seq<LegacyTicket>, eventId: string) returns (list: seq<LegacyTicket>)
    ensures list == OfEvent(tickets, eventId)
    ensures |list| == Count(tickets, eventId)
  {
    list := [];
    var i := 0;
    while i < |tickets|
      invariant 0 <= i <= |tickets|
      invariant list == OfEvent(tickets[..i], eventId)
    {
      assert tickets[..i + 1][..i] == tickets[..i];
      if tickets[i].eventId == Some(JStr(eventId)) {
        list := list + [tickets[i]];
      }
      i := i + 1;
    }
    assert tickets[..i] == tickets;
  }

  // ------------------------------------------------------------- properties

  /** A login succeeds exactly when the first event with the id stores the
      same password; it then names the id as sent and the stored name. The
      two refusals carry different messages. */
  lemma LoginIff(events: seq<LegacyEvent>, body: Json)
    requires TruthyOpt(Get(body, "event_id")) && TruthyOpt(Get(body, "event_pass"))
    ensures var r := Login(events, body);
            var k := FirstIndex(events, (e: LegacyEvent) => e.eventId == Get(body, "event_id"));
            (r.success <==> k.Some? && events[k.value].eventPass == Get(body, "event_pass")) &&
            (r.success ==> r.eventId == Get(body, "event_id") && r.eventName == events[k.value].eventName) &&
            (k.None? ==> r.message == "Event not found") &&
            (k.Some? && !r.success ==> r.message == "Wrong password")
  {
  }

  /** A scan admits a ticket exactly when both ids are given, a ticket
      matches both, and the first match is not used yet. */
  lemma ScanAdmitsIff(tickets: seq<LegacyTicket>, body: Json)
    ensures Scanned(tickets, body).reply.Admitted? <==>
              TruthyOpt(Get(body, "ticket_id")) && TruthyOpt(Get(body, "event_id")) &&
              var k := TicketMatch(tickets, Get(body, "ticket_id").value, Get(body, "event_id").value);
              k.Some? && !Used(tickets[k.value])
  {
  }

  /** Each ticket admits one scan: repeating a successful scan is refused
      with "Ticket already used". */
  lemma ScanIsOneShot(tickets: seq<LegacyTicket>, body: Json)
    requires Scanned(tickets, body).reply.Admitted?
    ensures Scanned(Scanned(tickets, body).tickets, body).reply == Refused("Ticket already used")
  {
    var tid := Get(body, "ticket_id").value;
    var eid := Get(body, "event_id").value;
    var after := Scanned(tickets, body).tickets;
    var k := TicketMatch(tickets, tid, eid).value;
    assert after[k].ticketId == Some(tid) && after[k].eventId == Some(eid) && Used(after[k]);
    assert forall j :: 0 <= j < k ==> after[j] == tickets[j];
    assert TicketMatch(after, tid, eid) == Some(k);
  }

  /** An admitted ticket of an event appears in that event's attendance
      report. */
  lemma ScanThenReport(tickets: seq<LegacyTicket>, body: Json, eventId: string)
    requires Get(body, "event_id") == Some(JStr(eventId))
    requires Scanned(tickets, body).reply.Admitted?
    ensures NameOf(tickets[TicketMatch(tickets, Get(body, "ticket_id").value, JStr(eventId)).value]) in
              Report(Scanned(tickets, body).tickets, eventId)
  {
    var after := Scanned(tickets, body).tickets;
    var k := TicketMatch(tickets, Get(body, "ticket_id").value, JStr(eventId)).value;
    assert after[k].eventId == Some(JStr(eventId)) && Used(after[k]) && NameOf(after[k]) == NameOf(tickets[k]);
  }

  /** The count is the length of the ticket list. */
  lemma CountIsListLength(tickets: seq<LegacyTicket>, eventId: string)
    ensures Count(tickets, eventId) == |OfEvent(tickets, eventId)|
    ensures Count(tickets, eventId) == 0 <==> forall k :: 0 <= k < |tickets| ==> tickets[k].eventId != Some(JStr(eventId))
  {
    if Count(tickets, eventId) > 0 {
      assert OfEvent(tickets, eventId)[0] in tickets;
    }
  }
}
