/** Event settings for the event coordinator
    (app/api/coordinator/update-event/route.ts).  POST validates the body
    (venue, date, time and slot, each optional; a venue must not be empty),
    builds a patch of exactly the provided fields and writes it to the event
    named by the `coord_event` cookie.  GET returns the four fields with ""
    for any that is missing. */
module UpdateEvent {
  import opened Common
  import opened Json
  import opened Entities
  import opened Schemas

  datatype Settings = Settings(venue: Option<string>, date: Option<string>, time: Option<string>, slot: Option<string>)

  const Failure := Reply(500, false, "Failed to update event")

  /** `UpdateEventSchema.safeParse(json)`. */
  function ParseSettings(body: Json): (r: Checked<Settings>)
    ensures r.Pass? <==> body.JObj? && OptionalStringOfAtLeast(Get(body, "venue"), 1) &&
                         OptionalStringOfAtLeast(Get(body, "date"), 0) && OptionalStringOfAtLeast(Get(body, "time"), 0) &&
                         OptionalStringOfAtLeast(Get(body, "slot"), 0)
    ensures !body.JObj? ==> r == Fail(NotObject)
    ensures r.Pass? ==> (r.value.venue.Some? <==> Get(body, "venue").Some?) && (r.value.date.Some? <==> Get(body, "date").Some?) &&
                        (r.value.time.Some? <==> Get(body, "time").Some?) && (r.value.slot.Some? <==> Get(body, "slot").Some?)
  {
    if !body.JObj? then Fail(NotObject)
    else match OptionalString(body, "venue", 1, "Venue is required")
      case Fail(i) => Fail(i)
      case Pass(venue) =>
        match OptionalString(body, "date", 0, "")
        case Fail(i) => Fail(i)
        case Pass(date) =>
          match OptionalString(body, "time", 0, "")
          case Fail(i) => Fail(i)
          case Pass(time) =>
            match OptionalString(body, "slot", 0, "")
            case Fail(i) => Fail(i)
            case Pass(slot) => Pass(Settings(venue, date, time, slot))
  }

  /** The `updateData` object: one key per provided field. */
  function Patch(s: Settings): (r: map<string, string>)
    ensures r.Keys <= {"venue", "date", "time", "slot"}
    ensures ("venue" in r <==> s.venue.Some?) && (s.venue.Some? ==> r["venue"] == s.venue.value)
    ensures ("date" in r <==> s.date.Some?) && (s.date.Some? ==> r["date"] == s.date.value)
    ensures ("time" in r <==> s.time.Some?) && (s.time.Some? ==> r["time"] == s.time.value)
    ensures ("slot" in r <==> s.slot.Some?) && (s.slot.Some? ==> r["slot"] == s.slot.value)
  {
    var m0: map<string, string> := map[];
    var m1 := if s.venue.Some? then m0["venue" := s.venue.value] else m0;
    var m2 := if s.date.Some? then m1["date" := s.date.value] else m1;
    var m3 := if s.time.Some? then m2["time" := s.time.value] else m2;
    if s.slot.Some? then m3["slot" := s.slot.value] else m3
  }

  /** The event document after `updateDocument` with a patch. */
  function Apply(e: Event, patch: map<string, string>): (r: Event)
    ensures r == e.(venue := r.venue, date := r.date, time := r.time, slot := r.slot)
    ensures r.venue == (if "venue" in patch then Some(patch["venue"]) else e.venue)
    ensures r.date == (if "date" in patch then Some(patch["date"]) else e.date)
    ensures r.time == (if "time" in patch then Some(patch["time"]) else e.time)
    ensures r.slot == (if "slot" in patch then Some(patch["slot"]) else e.slot)
  {
    e.(venue := if "venue" in patch then Some(patch["venue"]) else e.venue,
       date := if "date" in patch then Some(patch["date"]) else e.date,
       time := if "time" in patch then Some(patch["time"]) else e.time,
       slot := if "slot" in patch then Some(patch["slot"]) else e.slot)
  }

  function Patched(events: seq<Event>, id: string, patch: map<string, string>): (r: seq<Event>)
    ensures |r| == |events|
    ensures forall i :: 0 <= i < |events| ==> r[i] == if events[i].id == id then Apply(events[i], patch) else events[i]
  {
    seq(|events|, i requires 0 <= i < |events| => if events[i].id == id then Apply(events[i], patch) else events[i])
  }

  datatype Outcome = Outcome(reply: Reply, updated: map<string, string>, events: seq<Event>)

  /** `POST /api/coordinator/update-event`; `coordEvent` is the cookie and
      `body` is `None` when it is not JSON. */
  function Update(events: seq<Event>, coordEvent: Option<string>, body: Option<Json>): (o: Outcome)
    ensures o.reply.status != 200 ==> o.events == events && o.updated == map[]
    ensures |o.events| == |events|
  {
    if !Common.Truthy(coordEvent) then Outcome(Reply(401, false, "Not authenticated as coordinator"), map[], events)
    else if body.None? then Outcome(Failure, map[], events)
    else match ParseSettings(body.value)
      case Fail(issue) => Outcome(Reply(400, false, Message(issue)), map[], events)
      case Pass(settings) =>
        var patch := Patch(settings);
        if |patch| == 0 then Outcome(Reply(400, false, "No fields to update"), map[], events)
        else if GetEvent(events, coordEvent.value).None? then Outcome(Failure, map[], events)
        else Outcome(Reply(200, true, "Event updated successfully"), patch, Patched(events, coordEvent.value, patch))
  }

  /** The handler on the primary store: the patch is filled by conditional
      assignments and then written. */
  method Post(db: Backend, coordEvent: Option<string>, body: Option<Json>) returns (reply: Reply, updated: map<string, string>)
    modifies db
    ensures reply == Update(old(db.events), coordEvent, body).reply
    ensures updated == Update(old(db.events), coordEvent, body).updated
    ensures db.events == Update(old(db.events), coordEvent, body).events
    ensures db.tickets == old(db.tickets) && db.attendance == old(db.attendance) && db.users == old(db.users)
  {
    if !Common.Truthy(coordEvent) {
      return Reply(401, false, "Not authenticated as coordinator"), map[];
    }
    if body.None? {
      return Failure, map[];
    }
    var parsed := ParseSettings(body.value);
    if parsed.Fail? {
      return Reply(400, false, Message(parsed.issue)), map[];
    }
    var s := parsed.value;
    var updateData: map<string, string> := map[];
    if s.venue.Some? { updateData := updateData["venue" := s.venue.value]; }
    if s.date.Some? { updateData := updateData["date" := s.date.value]; }
    if s.time.Some? { updateData := updateData["time" := s.time.value]; }
    if s.slot.Some? { updateData := updateData["slot" := s.slot.value]; }
    assert updateData == Patch(s);
    if |updateData| == 0 {
      return Reply(400, false, "No fields to update"), map[];
    }
    if GetEvent(db.events, coordEvent.value).None? {
      return Failure, map[];
    }
    db.events := Patched(db.events, coordEvent.value, updateData);
    return Reply(200, true, "Event updated successfully"), updateData;
  }

  datatype Details = Details(venue: string, date: string, time: string, slot: string)

  /** `GET /api/coordinator/update-event` */
  function Read(events: seq<Event>, coordEvent: Option<string>): (r: (Reply, Option<Details>))
    ensures r.0.status == 200 <==> r.1.Some?
    ensures r.1.Some? <==> Common.Truthy(coordEvent) && GetEvent(events, coordEvent.value).Some?
    ensures r.1.Some? ==> coordEvent.Some? && GetEvent(events, coordEvent.value).Some? &&
                          var e := GetEvent(events, coordEvent.value).value;
                          r.1.value == Details(OrElse(e.venue, ""), OrElse(e.date, ""), OrElse(e.time, ""), OrElse(e.slot, ""))
  {
    if !Common.Truthy(coordEvent) then (Reply(401, false, "Not authenticated as coordinator"), None)
    else match GetEvent(events, coordEvent.value)
      case None => (Reply(500, false, "Failed to get event details"), None)
      case Some(e) => (Reply(200, true, ""), Some(Details(OrElse(e.venue, ""), OrElse(e.date, ""), OrElse(e.time, ""), OrElse(e.slot, ""))))
  }

  // ------------------------------------------------------------- properties

  /** A successful update writes exactly the provided fields, as sent, to
      the cookie's event; every other field and every other event keep
      their values, and the response echoes the patch. */
  lemma WritesOnlyProvidedFields(events: seq<Event>, id: string, body: Json)
    requires Update(events, Some(id), Some(body)).reply.status == 200
    ensures var o := Update(events, Some(id), Some(body));
            o.updated.Keys <= {"venue", "date", "time", "slot"} && |o.updated| > 0 &&
            (forall k :: k in o.updated ==> Get(body, k) == Some(JStr(o.updated[k]))) &&
            (forall k :: k in {"venue", "date", "time", "slot"} && Get(body, k).Some? ==> k in o.updated) &&
            forall i :: 0 <= i < |events| ==>
              o.events[i] == if events[i].id == id then Apply(events[i], o.updated) else events[i]
  {
    var s := ParseSettings(body).value;
    var p := Patch(s);
    forall k | k in p
      ensures Get(body, k) == Some(JStr(p[k]))
    {
      if k == "venue" {
        assert OptionalString(body, "venue", 1, "Venue is required") == Pass(s.venue);
      } else if k == "date" {
        assert OptionalString(body, "date", 0, "") == Pass(s.date);
      } else if k == "time" {
        assert OptionalString(body, "time", 0, "") == Pass(s.time);
      } else {
        assert OptionalString(body, "slot", 0, "") == Pass(s.slot);
      }
    }
  }

  /** The body the coordinator page sends to close an event,
      `{completed: true}`, names none of the four fields: it is refused with
      "No fields to update" and the event is not completed. */
  lemma CompletedFlagIsNotAField(events: seq<Event>, coordEvent: Option<string>)
    requires Common.Truthy(coordEvent)
    ensures var o := Update(events, coordEvent, Some(JObj([Member("completed", JBool(true))])));
            o.reply == Reply(400, false, "No fields to update") && o.events == events
  {
    var body := JObj([Member("completed", JBool(true))]);
    assert Get(body, "venue").None? && Get(body, "date").None? && Get(body, "time").None? && Get(body, "slot").None?;
    assert |Patch(ParseSettings(body).value)| == 0;
  }

  /** An empty venue fails validation with the schema's message, while an
      empty date, time or slot is accepted. */
  lemma EmptyVenueRefused(events: seq<Event>, coordEvent: Option<string>)
    requires Common.Truthy(coordEvent)
    ensures Update(events, coordEvent, Some(JObj([Member("venue", JStr(""))]))).reply == Reply(400, false, "Venue is required")
    ensures ParseSettings(JObj([Member("date", JStr(""))])).Pass?
  {
    var body := JObj([Member("venue", JStr(""))]);
    assert Get(body, "venue") == Some(JStr(""));
    var other := JObj([Member("date", JStr(""))]);
    assert Get(other, "venue").None? && Get(other, "date") == Some(JStr(""));
    assert Get(other, "time").None? && Get(other, "slot").None?;
  }

  /** Reading the settings after a successful update returns each provided
      field as sent and every other field as it was. */
  lemma ReadAfterUpdate(events: seq<Event>, coordEvent: Option<string>, body: Json)
    requires Update(events, coordEvent, Some(body)).reply.status == 200
    ensures var o := Update(events, coordEvent, Some(body));
            var before := Read(events, coordEvent).1;
            var after := Read(o.events, coordEvent).1;
            before.Some? && after.Some? &&
            after.value.venue == (if "venue" in o.updated then o.updated["venue"] else before.value.venue) &&
            after.value.date == (if "date" in o.updated then o.updated["date"] else before.value.date) &&
            after.value.time == (if "time" in o.updated then o.updated["time"] else before.value.time) &&
            after.value.slot == (if "slot" in o.updated then o.updated["slot"] else before.value.slot)
  {
    var o := Update(events, coordEvent, Some(body));
    var id := coordEvent.value;
    var i := EventIndex(events, id).value;
    var k := EventIndex(o.events, id).value;
    assert k == i;
  }
}
