/** The dual-source read path (lib/data-fetcher.ts): each lookup tries the
    secondary read replica (Firebase) after an availability probe, falls back
    to the primary store (Appwrite), and tags the answer with its source.
    The functions are pure: they read store snapshots and return values. */
module DataFetcher {
  import opened Common
  import opened Entities

  datatype Source = Firebase | Appwrite | Error

  /** A snapshot of the secondary store together with how it behaves during
      one lookup: whether the availability probe succeeds and whether the
      query issued after a successful probe throws. */
  datatype Replica = Replica(
    reachable: bool,
    queryThrows: bool,
    events: seq<Event>,
    tickets: seq<Ticket>,
    attendance: seq<Attendance>,
    users: seq<User>)

  /** A snapshot of the primary store; `up` is false when every call to it
      throws. */
  datatype Primary = Primary(
    up: bool,
    events: seq<Event>,
    tickets: seq<Ticket>,
    attendance: seq<Attendance>,
    users: seq<User>)

  datatype Single<T> = Single(value: Option<T>, source: Source, success: bool)
  datatype Listing<T> = Listing(items: seq<T>, total: int, source: Source, success: bool)

  /** `checkFirebaseAvailable()`: the probe query either succeeds or its
      failure is caught and reported as unavailable. */
  function CheckFirebaseAvailable(r: Replica): (ok: bool)
    ensures ok <==> r.reachable
  {
    r.reachable
  }

  /** Whether a read of the secondary store is attempted and returns. */
  predicate SecondaryAnswers(r: Replica) {
    CheckFirebaseAvailable(r) && !r.queryThrows
  }

  /** `fetchEvent(eventId)` */
  function FetchEvent(r: Replica, p: Primary, eventId: string): (res: Single<Event>)
    ensures res.success <==> res.source != Error
    ensures res.source == Error ==> res.value.None?
    ensures res.source == Firebase <==> SecondaryAnswers(r) && GetEvent(r.events, eventId).Some?
    ensures res.source == Firebase ==> res.value == Some(GetEvent(r.events, eventId).value.(id := eventId))
    ensures res.source == Appwrite ==> res.value == GetEvent(p.events, eventId) && res.value.Some?
    ensures res.source == Error <==> !(SecondaryAnswers(r) && GetEvent(r.events, eventId).Some?)
                                     && !(p.up && GetEvent(p.events, eventId).Some?)
  {
    if SecondaryAnswers(r) && GetEvent(r.events, eventId).Some? then
      Single(Some(GetEvent(r.events, eventId).value.(id := eventId)), Firebase, true)
    else if p.up && GetEvent(p.events, eventId).Some? then
      Single(GetEvent(p.events, eventId), Appwrite, true)
    else
      Single(None, Error, false)
  }

  /** `fetchTicket(ticketId)`: the same rule as `fetchEvent`. */
  function FetchTicket(r: Replica, p: Primary, ticketId: string): (res: Single<Ticket>)
    ensures res.success <==> res.source != Error
    ensures res.source == Error ==> res.value.None?
    ensures res.source == Firebase <==> SecondaryAnswers(r) && GetTicket(r.tickets, ticketId).Some?
    ensures res.source == Firebase ==> res.value == Some(GetTicket(r.tickets, ticketId).value.(id := ticketId))
    ensures res.source == Appwrite ==> res.value == GetTicket(p.tickets, ticketId) && res.value.Some?
    ensures res.source == Error <==> !(SecondaryAnswers(r) && GetTicket(r.tickets, ticketId).Some?)
                                     && !(p.up && GetTicket(p.tickets, ticketId).Some?)
  {
    if SecondaryAnswers(r) && GetTicket(r.tickets, ticketId).Some? then
      Single(Some(GetTicket(r.tickets, ticketId).value.(id := ticketId)), Firebase, true)
    else if p.up && GetTicket(p.tickets, ticketId).Some? then
      Single(GetTicket(p.tickets, ticketId), Appwrite, true)
    else
      Single(None, Error, false)
  }

  /** `fetchTicketsForEvent(eventId)`: a non-empty secondary answer is
      trusted; an empty one falls through to the primary store. */
  function FetchTicketsForEvent(r: Replica, p: Primary, eventId: string): (res: Listing<Ticket>)
    ensures res.success <==> res.source != Error
    ensures res.source == Error ==> res.items == [] && res.total == 0
    ensures res.source == Firebase <==> SecondaryAnswers(r) && TicketsOf(r.tickets, eventId) != []
    ensures res.source == Firebase ==> res.items == TicketsOf(r.tickets, eventId) && res.total == |res.items| > 0
    ensures res.source == Appwrite ==> res.items == TicketsOf(p.tickets, eventId) && res.total == |res.items|
    ensures res.source == Error <==> !(SecondaryAnswers(r) && TicketsOf(r.tickets, eventId) != []) && !p.up
  {
    var secondary := TicketsOf(r.tickets, eventId);
    if SecondaryAnswers(r) && |secondary| > 0 then
      Listing(secondary, |secondary|, Firebase, true)
    else if p.up then
      var primary := TicketsOf(p.tickets, eventId);
      Listing(primary, |primary|, Appwrite, true)
    else
      Listing([], 0, Error, false)
  }

  /** `fetchAttendanceForEvent(eventId)`: any secondary answer, empty or not,
      is returned; only a failed probe or a throwing query falls back. */
  function FetchAttendanceForEvent(r: Replica, p: Primary, eventId: string): (res: Listing<Attendance>)
    ensures res.success <==> res.source != Error
    ensures res.source == Error ==> res.items == [] && res.total == 0
    ensures res.source == Firebase <==> SecondaryAnswers(r)
    ensures res.source == Firebase ==> res.items == AttendanceOf(r.attendance, eventId) && res.total == |res.items|
    ensures res.source == Appwrite ==> res.items == AttendanceOf(p.attendance, eventId) && res.total == |res.items|
    ensures res.source == Error <==> !SecondaryAnswers(r) && !p.up
  {
    if SecondaryAnswers(r) then
      var secondary := AttendanceOf(r.attendance, eventId);
      Listing(secondary, |secondary|, Firebase, true)
    else if p.up then
      var primary := AttendanceOf(p.attendance, eventId);
      Listing(primary, |primary|, Appwrite, true)
    else
      Listing([], 0, Error, false)
  }

  function UsersWithIds(users: seq<User>, ids: seq<string>): (r: seq<User>)
    ensures forall i :: 0 <= i < |r| ==> r[i].id in ids && r[i] in users
    ensures forall i :: 0 <= i < |users| && users[i].id in ids ==> users[i] in r
  {
    Filter(users, (u: User) => u.id in ids)
  }

  /** `fetchUsers(userIds)`: an empty id list never reaches either store. */
  function FetchUsers(r: Replica, p: Primary, userIds: seq<string>): (res: Listing<User>)
    ensures res.success <==> res.source != Error
    ensures res.source == Error ==> res.items == []
    ensures userIds == [] ==> res == Listing([], 0, Appwrite, true)
    ensures forall i :: 0 <= i < |res.items| ==> res.items[i].id in userIds
    ensures res.source == Firebase <==> SecondaryAnswers(r) && userIds != []
    ensures res.source == Firebase ==> res.items == UsersWithIds(r.users, userIds)
    ensures res.source == Appwrite && userIds != [] ==> res.items == UsersWithIds(p.users, userIds)
    ensures res.source == Error <==> userIds != [] && !SecondaryAnswers(r) && !p.up
  {
    if SecondaryAnswers(r) && |userIds| > 0 then
      var found := UsersWithIds(r.users, userIds);
      Listing(found, |found|, Firebase, true)
    else if |userIds| == 0 then
      Listing([], 0, Appwrite, true)
    else if p.up then
      var found := UsersWithIds(p.users, userIds);
      Listing(found, |found|, Appwrite, true)
    else
      Listing([], 0, Error, false)
  }

  /** The asymmetry between the two collection lookups: when the secondary
      store answers with nothing for an event, the ticket lookup goes to the
      primary store and reports what is there, while the attendance lookup
      reports the empty secondary answer even if the primary store holds
      records for the event. */
  lemma EmptySecondaryAsymmetry(r: Replica, p: Primary, eventId: string)
    requires SecondaryAnswers(r) && p.up
    requires TicketsOf(r.tickets, eventId) == [] && AttendanceOf(r.attendance, eventId) == []
    ensures FetchTicketsForEvent(r, p, eventId).source == Appwrite
    ensures FetchTicketsForEvent(r, p, eventId).items == TicketsOf(p.tickets, eventId)
    ensures FetchAttendanceForEvent(r, p, eventId).source == Firebase
    ensures FetchAttendanceForEvent(r, p, eventId).items == []
  {
  }

  /** A stale replica that has not yet received an event's three tickets:
      the fetcher reports the primary store's three tickets. */
  lemma StaleReplicaTicketsComeFromPrimary(r: Replica, p: Primary, eventId: string, a: Ticket, b: Ticket, c: Ticket)
    requires SecondaryAnswers(r) && p.up
    requires TicketsOf(r.tickets, eventId) == []
    requires a.eventId == eventId && b.eventId == eventId && c.eventId == eventId
    requires p.tickets == [a, b, c]
    ensures FetchTicketsForEvent(r, p, eventId).items == [a, b, c]
    ensures FetchTicketsForEvent(r, p, eventId).total == 3
  {
    var inEvent := (t: Ticket) => t.eventId == eventId;
    assert [a, b, c][1..] == [b, c] && [b, c][1..] == [c] && [c][1..] == [];
    assert Filter([c], inEvent) == [c];
    assert Filter([b, c], inEvent) == [b, c];
    assert Filter([a, b, c], inEvent) == [a, b, c];
  }

  /** An unreachable replica never prevents a read: whenever the primary
      store holds the entity, every single-entity lookup succeeds from it. */
  lemma UnreachableReplicaFallsBack(r: Replica, p: Primary, eventId: string, ticketId: string)
    requires !r.reachable && p.up
    ensures GetEvent(p.events, eventId).Some? ==> FetchEvent(r, p, eventId) == Single(GetEvent(p.events, eventId), Appwrite, true)
    ensures GetTicket(p.tickets, ticketId).Some? ==> FetchTicket(r, p, ticketId) == Single(GetTicket(p.tickets, ticketId), Appwrite, true)
    ensures FetchAttendanceForEvent(r, p, eventId).source == Appwrite
  {
  }
}
