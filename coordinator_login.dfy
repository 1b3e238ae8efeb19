/** The event-coordinator login (app/api/coordinator/login/route.ts): the
    event is found by its business id and the password is compared as plain
    text with the event's `event_pass`.  Unlike the main-coordinator login it
    has no rate limit, sets no cookie and tells an unknown event apart from a
    wrong password.  The fresh token is a parameter. */
module CoordinatorLogin {
  import opened Common
  import opened Json
  import opened Entities

  datatype Coordinator = Coordinator(id: string, eventId: string, eventName: string)

  datatype Result = Result(status: int, message: string, token: Option<string>, coordinator: Option<Coordinator>)

  function Refusal(status: int, message: string): Result {
    Result(status, message, None, None)
  }

  /** `POST /api/coordinator/login`; `configured` says whether the database
      and collection ids are set, and `body` is `None` when it is not
      JSON. */
  function Login(configured: bool, events: seq<Event>, body: Option<Json>, token: string): (r: Result)
    ensures r.status in {200, 400, 401, 404, 500}
    ensures r.status == 200 <==> r.token.Some? && r.coordinator.Some?
    ensures r.status == 200 ==> r.token == Some(token)
  {
    if !configured then Refusal(500, "Server configuration error")
    else if body.None? || body.value.JNull? then Refusal(500, "")
    else
      var eventId := Get(body.value, "event_id");
      var eventPass := Get(body.value, "event_pass");
      if !TruthyOpt(eventId) || !TruthyOpt(eventPass) then Refusal(400, "Event ID and password are required")
      else if EqualValues(eventId.value) == [] then Refusal(500, "")
      else match EventByEqual(events, eventId.value)
        case None => Refusal(404, "Event not found")
        case Some(e) =>
          if e.eventPass.None? || JStr(e.eventPass.value) != eventPass.value then Refusal(401, "Invalid password")
          else Result(200, "", Some(token), Some(Coordinator(e.id, e.eventId, e.name)))
  }

  /** The login request of a client. */
  function Body(eventId: string, eventPass: string): Json {
    JObj([Member("event_id", JStr(eventId)), Member("event_pass", JStr(eventPass))])
  }

  // ------------------------------------------------------------- properties

  /** A login succeeds exactly when the first event with the business id
      stores the given password, compared as plain text; the response names
      that event. */
  lemma SuccessIffStoredPassword(events: seq<Event>, eventId: string, eventPass: string, token: string)
    requires eventId != "" && eventPass != ""
    ensures var r := Login(true, events, Some(Body(eventId, eventPass)), token);
            (r.status == 200 <==> EventByBusinessId(events, eventId).Some? &&
                                  EventByBusinessId(events, eventId).value.eventPass == Some(eventPass)) &&
            (r.status == 200 ==> r.coordinator == Some(Coordinator(EventByBusinessId(events, eventId).value.id, eventId,
                                                                   EventByBusinessId(events, eventId).value.name)))
  {
    var b := Body(eventId, eventPass);
    LookupDistinct(b.members, 0);
    LookupDistinct(b.members, 1);
    assert Get(b, "event_id") == Some(JStr(eventId)) && Get(b, "event_pass") == Some(JStr(eventPass));
    assert TruthyOpt(Get(b, "event_id")) && TruthyOpt(Get(b, "event_pass"));
  }

  /** An event id that the query finds in no stored event gives 404 "Event
      not found", whatever the password. */
  lemma UnknownEventIsNotFound(events: seq<Event>, body: Json, token: string)
    requires !body.JNull? && TruthyOpt(Get(body, "event_id")) && TruthyOpt(Get(body, "event_pass"))
    requires EqualValues(Get(body, "event_id").value) != []
    requires forall k :: 0 <= k < |events| ==> !EqualMatches(events[k].eventId, Get(body, "event_id").value)
    ensures Login(true, events, Some(body), token) == Refusal(404, "Event not found")
  {
  }

  /** A known event id with a password other than the stored one gives 401
      "Invalid password", so the two failures can be told apart. */
  lemma WrongPasswordIsInvalid(events: seq<Event>, eventId: string, eventPass: string, token: string)
    requires eventId != "" && eventPass != ""
    requires EventByBusinessId(events, eventId).Some? && EventByBusinessId(events, eventId).value.eventPass != Some(eventPass)
    ensures Login(true, events, Some(Body(eventId, eventPass)), token) == Refusal(401, "Invalid password")
  {
    var b := Body(eventId, eventPass);
    LookupDistinct(b.members, 0);
    LookupDistinct(b.members, 1);
    var e := EventByBusinessId(events, eventId).value;
    assert e.eventPass.None? || JStr(e.eventPass.value) != JStr(eventPass);
  }

  /** An array event id is a list of alternatives: the first stored event
      whose business id is one of them is the one whose password is checked. */
  lemma ArrayIdMatchesAnyItem(events: seq<Event>, ids: seq<string>, eventPass: string, token: string)
    requires eventPass != "" && ids != []
    requires exists k :: 0 <= k < |events| && events[k].eventId in ids
    ensures var body := JObj([Member("event_id", JArr(seq(|ids|, i requires 0 <= i < |ids| => JStr(ids[i])))),
                              Member("event_pass", JStr(eventPass))]);
            var r := Login(true, events, Some(body), token);
            r.status != 404 && (r.status == 200 ==> r.coordinator.value.eventId in ids)
  {
    var items := seq(|ids|, i requires 0 <= i < |ids| => JStr(ids[i]));
    var body := JObj([Member("event_id", JArr(items)), Member("event_pass", JStr(eventPass))]);
    LookupDistinct(body.members, 0);
    LookupDistinct(body.members, 1);
    var k :| 0 <= k < |events| && events[k].eventId in ids;
    var n :| 0 <= n < |ids| && ids[n] == events[k].eventId;
    assert items[n] == JStr(events[k].eventId);
    assert EqualMatches(events[k].eventId, JArr(items));
    var e := EventByEqual(events, JArr(items));
    if e.Some? {
      var m :| 0 <= m < |items| && items[m] == JStr(e.value.eventId);
    }
  }

  /** A missing id or password is refused before any lookup. */
  lemma MissingFieldIsBadRequest(events: seq<Event>, body: Json, token: string)
    requires !body.JNull? && !TruthyOpt(Get(body, "event_pass"))
    ensures Login(true, events, Some(body), token) == Refusal(400, "Event ID and password are required")
  {
  }
}
