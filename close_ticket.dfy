/** Closing an event (app/api/tickets/close-ticket/route.ts): the event is
    marked completed, then every ticket of the event is deactivated, one
    update per ticket.  A request for an event that is already completed
    writes nothing. */
module CloseTicket {
  import opened Common
  import opened Json
  import opened Entities
  import opened Schemas

  /** The events after the one with document id `id` is marked completed. */
  function Completed(events: seq<Event>, id: string): (r: seq<Event>)
    ensures |r| == |events|
  {
    seq(|events|, k requires 0 <= k < |events| =>
      if events[k].id == id then events[k].(completed := true) else events[k])
  }

  /** The tickets after every ticket that `pick` selects is set inactive. */
  function InactiveWhere(tickets: seq<Ticket>, pick: Ticket -> bool): (r: seq<Ticket>)
    ensures |r| == |tickets|
  {
    seq(|tickets|, k requires 0 <= k < |tickets| =>
      if pick(tickets[k]) then tickets[k].(active := false) else tickets[k])
  }

  /** The tickets after every ticket of event `eventId` is set inactive. */
  function Deactivated(tickets: seq<Ticket>, eventId: string): (r: seq<Ticket>)
    ensures |r| == |tickets|
    ensures forall k :: 0 <= k < |tickets| ==>
              r[k].active == (tickets[k].active && tickets[k].eventId != eventId)
  {
    InactiveWhere(tickets, (t: Ticket) => t.eventId == eventId)
  }

  /** The tickets after the updates of the tickets of event `eventId` whose
      ids are in `done` have taken effect, and no others. */
  function DeactivatedAmong(tickets: seq<Ticket>, eventId: string, done: set<string>): (r: seq<Ticket>)
    ensures |r| == |tickets|
  {
    InactiveWhere(tickets, (t: Ticket) => t.eventId == eventId && t.id in done)
  }

  /** Which store call of a close throws, if any.  The ticket updates are
      issued together (`Promise.all`), so when one of them fails, those in
      `done` have taken effect and the others have not. */
  datatype Fault = NoFault | EventWriteFails | ListFails | TicketWritesFail(done: set<string>)

  /** The tickets after the cascade under `fault`. */
  function AfterCascade(tickets: seq<Ticket>, eventId: string, fault: Fault): (r: seq<Ticket>)
    ensures |r| == |tickets|
  {
    match fault
    case TicketWritesFail(done) => DeactivatedAmong(tickets, eventId, done)
    case _ => Deactivated(tickets, eventId)
  }

  function Ids(tickets: seq<Ticket>): (r: seq<string>)
    ensures |r| == |tickets| && forall j :: 0 <= j < |tickets| ==> r[j] == tickets[j].id
  {
    seq(|tickets|, j requires 0 <= j < |tickets| => tickets[j].id)
  }

  const Failure := Reply(500, false, "Failed to complete event")

  /** With distinct ticket ids, a ticket's id is among the ids the event
      query returns exactly when the ticket belongs to the event. */
  lemma QueriedIds(tickets: seq<Ticket>, eventId: string, k: nat)
    requires DistinctTicketIds(tickets) && k < |tickets|
    ensures tickets[k].id in Ids(TicketsOf(tickets, eventId)) <==> tickets[k].eventId == eventId
  {
    var found := TicketsOf(tickets, eventId);
    var ids := Ids(found);
    if tickets[k].eventId == eventId {
      assert tickets[k] in found;
      var j :| 0 <= j < |found| && found[j] == tickets[k];
      assert ids[j] == tickets[k].id;
    }
    if tickets[k].id in ids {
      var j :| 0 <= j < |ids| && ids[j] == tickets[k].id;
      assert found[j] in tickets;
      var m :| 0 <= m < |tickets| && tickets[m] == found[j];
      assert m == k;
    }
  }

  /** `POST /api/tickets/close-ticket`.  `body` is `None` when the request
      body is not JSON, and `fault` says which store write, if any, throws.
      `ticketsClosed` is the `tickets_closed` field of a successful
      response, and `exposesErrors` is as in `Schemas.Refused`.  A failure
      after the event write leaves the event completed and answers 500. */
  method Close(db: Backend, body: Option<Json>, fault: Fault, exposesErrors: bool) returns (reply: Reply, ticketsClosed: Option<nat>)
    requires db.Valid()
    modifies db
    ensures db.Valid()
    ensures db.attendance == old(db.attendance) && db.users == old(db.users)
    ensures body.None? ==> reply == Failure && unchanged(db)
    ensures body.Some? && ParseCloseTicket(body.value).Fail? ==>
              reply == Refused(ParseCloseTicket(body.value).issue, exposesErrors, Failure) && unchanged(db)
    ensures body.Some? && ParseCloseTicket(body.value).Pass? ==>
              var id := ParseCloseTicket(body.value).value;
              var event := GetEvent(old(db.events), id);
              (event.None? ==> reply == Failure && unchanged(db)) &&
              (event.Some? && event.value.completed ==>
                 reply == Reply(200, true, "Event already completed") && unchanged(db)) &&
              (event.Some? && !event.value.completed && fault == EventWriteFails ==>
                 reply == Failure && unchanged(db)) &&
              (event.Some? && !event.value.completed && fault == ListFails ==>
                 reply == Failure && db.events == Completed(old(db.events), id) && db.tickets == old(db.tickets)) &&
              (event.Some? && !event.value.completed && fault.TicketWritesFail? ==>
                 reply == Failure && db.events == Completed(old(db.events), id) &&
                 db.tickets == AfterCascade(old(db.tickets), id, fault)) &&
              (event.Some? && !event.value.completed && fault == NoFault ==>
                 reply == Reply(200, true, "Event completed and all tickets closed") &&
                 db.events == Completed(old(db.events), id) &&
                 db.tickets == Deactivated(old(db.tickets), id) &&
                 ticketsClosed == Some(|TicketsOf(old(db.tickets), id)|))
  {
    ticketsClosed := None;
    if body.None? {
      return Failure, None;
    }
    var parsed := ParseCloseTicket(body.value);
    if parsed.Fail? {
      return Refused(parsed.issue, exposesErrors, Failure), None;
    }
    var id := parsed.value;
    var event := GetEvent(db.events, id);
    if event.None? {
      return Failure, None;
    }
    if event.value.completed {
      return Reply(200, true, "Event already completed"), None;
    }
    if fault == EventWriteFails {
      return Failure, None;
    }
    db.events := Completed(db.events, id);
    if fault == ListFails {
      return Failure, None;
    }
    var closed := CloseTickets(db, id, fault);
    if fault.TicketWritesFail? {
      return Failure, None;
    }
    reply := Reply(200, true, "Event completed and all tickets closed");
    ticketsClosed := Some(closed);
  }

  /** The cascade: every ticket the event query returns is set inactive, one
      update per ticket id, except those whose update fails under `fault`.
      `closed` is the number of tickets found. */
  method CloseTickets(db: Backend, id: string, fault: Fault) returns (closed: nat)
    requires DistinctTicketIds(db.tickets)
    modifies db
    ensures db.tickets == AfterCascade(old(db.tickets), id, fault)
    ensures closed == |TicketsOf(old(db.tickets), id)|
    ensures db.events == old(db.events) && db.attendance == old(db.attendance) && db.users == old(db.users)
  {
    var found := TicketsOf(db.tickets, id);
    var ids := Ids(found);
    ghost var before := db.tickets;
    var i := 0;
    while i < |ids|
      invariant 0 <= i <= |ids|
      invariant |db.tickets| == |before|
      invariant forall k :: 0 <= k < |before| ==>
                  db.tickets[k] == if before[k].id in ids[..i] && Applied(fault, before[k].id)
                                   then before[k].(active := false) else before[k]
      invariant db.events == old(db.events) && db.attendance == old(db.attendance) && db.users == old(db.users)
    {
      assert ids[..i + 1] == ids[..i] + [ids[i]];
      if Applied(fault, ids[i]) {
        var target := ids[i];
        db.tickets := InactiveWhere(db.tickets, (t: Ticket) => t.id == target);
      }
      i := i + 1;
    }
    assert ids[..i] == ids;
    forall k | 0 <= k < |before|
      ensures db.tickets[k] == AfterCascade(before, id, fault)[k]
    {
      QueriedIds(before, id, k);
    }
    closed := |found|;
  }

  /** Whether the update of ticket `ticketId` takes effect under `fault`. */
  predicate Applied(fault: Fault, ticketId: string) {
    !fault.TicketWritesFail? || ticketId in fault.done
  }

  // ------------------------------------------------------------- properties

  /** After a close, no ticket of the event is active, and every other
      ticket is exactly as it was. */
  lemma ClosedEventHasNoActiveTicket(tickets: seq<Ticket>, eventId: string)
    ensures forall k :: 0 <= k < |tickets| && tickets[k].eventId == eventId ==>
              !Deactivated(tickets, eventId)[k].active
                && Deactivated(tickets, eventId)[k] == tickets[k].(active := false)
    ensures forall k :: 0 <= k < |tickets| && tickets[k].eventId != eventId ==>
              Deactivated(tickets, eventId)[k] == tickets[k]
  {
  }

  /** Deactivating twice is deactivating once. */
  lemma DeactivateIdempotent(tickets: seq<Ticket>, eventId: string)
    ensures Deactivated(Deactivated(tickets, eventId), eventId) == Deactivated(tickets, eventId)
  {
  }

  /** Completion is one-way: every event completed before a close is still
      completed after it, the closed event is completed, and nothing else
      about any event changes. */
  lemma CompletionIsOneWay(events: seq<Event>, id: string)
    ensures forall k :: 0 <= k < |events| && events[k].completed ==> Completed(events, id)[k].completed
    ensures forall k :: 0 <= k < |events| ==> Completed(events, id)[k].(completed := events[k].completed) == events[k]
    ensures forall k :: 0 <= k < |events| && events[k].id == id ==> Completed(events, id)[k].completed
  {
  }

  /** Once an event has been closed, the lookup a second close performs
      finds it completed, so the second close takes the no-write branch. */
  lemma {:induction false} ReclosingFindsCompleted(events: seq<Event>, id: string)
    requires GetEvent(events, id).Some?
    ensures GetEvent(Completed(events, id), id).Some?
    ensures GetEvent(Completed(events, id), id).value.completed
  {
    var after := Completed(events, id);
    var j :| 0 <= j < |events| && events[j].id == id;
    assert after[j].id == id;
    var e := GetEvent(after, id).value;
    assert e in after;
    var m :| 0 <= m < |after| && after[m] == e;
    assert after[m].id == id;
    assert events[m].id == id;
  }

  /** A close that fails after the event write is stranded: the event is
      completed, so every later close takes the "Event already completed"
      branch and writes nothing, while a ticket of the event whose update did
      not take effect stays active for good. */
  lemma FailedCloseIsStranded(events: seq<Event>, tickets: seq<Ticket>, id: string, fault: Fault, k: nat)
    requires GetEvent(events, id).Some? && (fault == ListFails || fault.TicketWritesFail?)
    requires k < |tickets| && tickets[k].eventId == id && tickets[k].active
    requires fault.TicketWritesFail? ==> tickets[k].id !in fault.done
    ensures GetEvent(Completed(events, id), id).Some? && GetEvent(Completed(events, id), id).value.completed
    ensures var after := if fault == ListFails then tickets else AfterCascade(tickets, id, fault);
            after[k].active && after[k] == tickets[k]
  {
    ReclosingFindsCompleted(events, id);
  }

  /** Without a fault the cascade reaches every ticket of the event, and a
      fault can only leave tickets out of it, never touch another event's. */
  lemma CascadeOnlyOmits(tickets: seq<Ticket>, id: string, fault: Fault)
    ensures fault == NoFault ==> AfterCascade(tickets, id, fault) == Deactivated(tickets, id)
    ensures forall k :: 0 <= k < |tickets| ==>
              AfterCascade(tickets, id, fault)[k] == tickets[k] ||
              AfterCascade(tickets, id, fault)[k] == Deactivated(tickets, id)[k]
  {
  }

  /** A concrete close: two of three tickets belong to the event; both are
      deactivated, the third is untouched, and the count reported is two. */
  lemma CloseExample(a: Ticket, b: Ticket, c: Ticket)
    requires a.eventId == "e1" && b.eventId == "e2" && c.eventId == "e1"
    requires a.active && b.active && c.active
    ensures Deactivated([a, b, c], "e1") == [a.(active := false), b, c.(active := false)]
    ensures |TicketsOf([a, b, c], "e1")| == 2
  {
    var inEvent := (t: Ticket) => t.eventId == "e1";
    assert [a, b, c][1..] == [b, c] && [b, c][1..] == [c] && [c][1..] == [];
    assert Filter([c], inEvent) == [c];
    assert Filter([b, c], inEvent) == [c];
    assert Filter([a, b, c], inEvent) == [a, c];
  }
}
