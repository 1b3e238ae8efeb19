/** Event winners (app/api/coordinator/winners/route.ts).  POST checks the
    body, checks every winner for a position and a name, finds the event by
    its business id and stores `JSON.stringify(winners)` in the event's
    `winners` attribute; a failing write is swallowed and the reply is still
    a success.  GET parses the stored text back, falling back to an empty
    list. */
module Winners {
  import opened Common
  import opened Json
  import opened Entities
  import JsObject

  /** The result of the validation loop over the winners. */
  datatype Verdict =
    | AllComplete
    | Incomplete  // a winner without a truthy position or name: 400
    | NullWinner  // `null.position` throws: 500

  /** `winner.position && winner.name` */
  predicate Complete(w: Json) {
    TruthyOpt(Get(w, "position")) && TruthyOpt(Get(w, "name"))
  }

  /** The loop `for (const winner of winners)` with its early return. */
  function Validate(ws: seq<Json>): (v: Verdict)
    ensures v == AllComplete <==> forall k :: 0 <= k < |ws| ==> Complete(ws[k])
  {
    if ws == [] then AllComplete
    else if ws[0].JNull? then NullWinner
    else if !Complete(ws[0]) then Incomplete
    else
      assert forall k :: 0 < k < |ws| ==> ws[k] == ws[1..][k - 1];
      Validate(ws[1..])
  }

  /** A refusal names the first incomplete winner: 500 when it is `null`,
      400 otherwise. */
  lemma {:induction false} FirstIncomplete(ws: seq<Json>)
    requires Validate(ws) != AllComplete
    ensures exists k :: 0 <= k < |ws| && !Complete(ws[k]) && (Validate(ws) == NullWinner <==> ws[k].JNull?) &&
                        forall j :: 0 <= j < k ==> Complete(ws[j])
  {
    if !ws[0].JNull? && Complete(ws[0]) {
      var rest := ws[1..];
      FirstIncomplete(rest);
      var k :| 0 <= k < |rest| && !Complete(rest[k]) && (Validate(rest) == NullWinner <==> rest[k].JNull?) &&
               forall j :: 0 <= j < k ==> Complete(rest[j]);
      assert ws[k + 1] == rest[k];
      forall j | 0 <= j < k + 1
        ensures Complete(ws[j])
      {
        if j > 0 { assert ws[j] == rest[j - 1]; }
      }
    } else {
      assert !Complete(ws[0]);
    }
  }

  /** The validation loop, proved against `Validate`. */
  method CheckWinners(ws: seq<Json>) returns (v: Verdict)
    ensures v == Validate(ws)
  {
    var i := 0;
    while i < |ws|
      invariant 0 <= i <= |ws|
      invariant Validate(ws) == Validate(ws[i..])
    {
      assert ws[i..][1..] == ws[i + 1..];
      if ws[i].JNull? {
        return NullWinner;
      }
      if !Complete(ws[i]) {
        return Incomplete;
      }
      i := i + 1;
    }
    assert ws[i..] == [];
    return AllComplete;
  }

  /** The events after `updateDocument(eventDoc.$id, {winners})`. */
  function WithWinners(events: seq<Event>, id: string, text: string): (r: seq<Event>)
    ensures |r| == |events|
    ensures forall i :: 0 <= i < |events| ==> r[i] == if events[i].id == id then events[i].(winners := Some(text)) else events[i]
  {
    seq(|events|, i requires 0 <= i < |events| => if events[i].id == id then events[i].(winners := Some(text)) else events[i])
  }

  datatype Outcome = Outcome(reply: Reply, winners: seq<Json>, events: seq<Event>)

  function Refuse(status: int, message: string, events: seq<Event>): Outcome {
    Outcome(Reply(status, false, message), [], events)
  }

  /** `POST /api/coordinator/winners`; `body` is `None` when it is not
      JSON and `writeOk` says whether `updateDocument` succeeds. */
  function Save(events: seq<Event>, body: Option<Json>, writeOk: bool): (o: Outcome)
    ensures o.reply.status in {200, 400, 404, 500}
    ensures o.reply.status != 200 ==> o.events == events
  {
    if body.None? || body.value.JNull? then Refuse(500, "Failed to save winners", events)
    else
      var eventId := Get(body.value, "event_id");
      var winners := Get(body.value, "winners");
      if !TruthyOpt(eventId) then Refuse(400, "Event ID is required", events)
      else if !TruthyOpt(winners) || !winners.value.JArr? then Refuse(400, "Winners array is required", events)
      else match Validate(winners.value.items)
        case NullWinner => Refuse(500, "Failed to save winners", events)
        case Incomplete => Refuse(400, "Each winner must have position and name", events)
        case AllComplete =>
          if EqualValues(eventId.value) == [] then Refuse(500, "Failed to save winners", events)
          else match EventByEqual(events, eventId.value)
          case None => Refuse(404, "Event not found", events)
          case Some(doc) =>
            var built := JsObject.Canonical(winners.value);
            var stored := if writeOk then WithWinners(events, doc.id, Stringify(built)) else events;
            Outcome(Reply(200, true, "Winners saved successfully"), built.items, stored)
  }

  /** The handler on the primary store. */
  method Post(db: Backend, body: Option<Json>, writeOk: bool) returns (reply: Reply, winners: seq<Json>)
    modifies db
    ensures reply == Save(old(db.events), body, writeOk).reply
    ensures winners == Save(old(db.events), body, writeOk).winners
    ensures db.events == Save(old(db.events), body, writeOk).events
    ensures db.tickets == old(db.tickets) && db.attendance == old(db.attendance) && db.users == old(db.users)
  {
    if body.None? || body.value.JNull? {
      return Reply(500, false, "Failed to save winners"), [];
    }
    var eventId := Get(body.value, "event_id");
    var list := Get(body.value, "winners");
    if !TruthyOpt(eventId) {
      return Reply(400, false, "Event ID is required"), [];
    }
    if !TruthyOpt(list) || !list.value.JArr? {
      return Reply(400, false, "Winners array is required"), [];
    }
    var verdict := CheckWinners(list.value.items);
    if verdict == NullWinner {
      return Reply(500, false, "Failed to save winners"), [];
    }
    if verdict == Incomplete {
      return Reply(400, false, "Each winner must have position and name"), [];
    }
    if EqualValues(eventId.value) == [] {
      return Reply(500, false, "Failed to save winners"), [];
    }
    var doc := EventByEqual(db.events, eventId.value);
    if doc.None? {
      return Reply(404, false, "Event not found"), [];
    }
    var built := JsObject.Canonical(list.value);
    if writeOk {
      db.events := WithWinners(db.events, doc.value.id, Stringify(built));
    }
    return Reply(200, true, "Winners saved successfully"), built.items;
  }

  /** `GET /api/coordinator/winners` with the `x-event-id` header: the parsed
      winners, or `[]` when none are stored or the text does not parse. */
  function Read(events: seq<Event>, header: Option<string>): (r: (Reply, Option<Json>))
    ensures r.0.status in {200, 401, 404}
    ensures r.0.status == 200 <==> r.1.Some?
    ensures r.1.Some? ==> Common.Truthy(header) && EventByBusinessId(events, header.value).Some? &&
                          var stored := EventByBusinessId(events, header.value).value.winners;
                          r.1.value == if stored.Some? && stored.value != "" && Parse(stored.value).Some?
                                       then Parse(stored.value).value else JArr([])
  {
    if !Common.Truthy(header) then (Reply(401, false, "Event ID missing"), None)
    else match EventByBusinessId(events, header.value)
      case None => (Reply(404, false, "Event not found"), None)
      case Some(e) =>
        var winners :=
          if e.winners.Some? && e.winners.value != "" then
            match Parse(e.winners.value)
            case Some(v) => v
            case None => JArr([])
          else JArr([]);
        (Reply(200, true, ""), Some(winners))
  }

  // ------------------------------------------------------------- properties

  /** Saving succeeds exactly for an object body with a truthy event id, an
      array of complete winners and a known event; the write itself may
      fail without changing the reply. */
  lemma SavedIff(events: seq<Event>, body: Json, writeOk: bool)
    ensures Save(events, Some(body), writeOk).reply.status == 200 <==>
              body.JObj? && TruthyOpt(Get(body, "event_id")) && Get(body, "winners").Some? &&
              Get(body, "winners").value.JArr? &&
              (forall k :: 0 <= k < |Get(body, "winners").value.items| ==> Complete(Get(body, "winners").value.items[k])) &&
              EqualValues(Get(body, "event_id").value) != [] &&
              EventByEqual(events, Get(body, "event_id").value).Some?
    ensures Save(events, Some(body), false).events == events
  {
  }

  /** What GET returns after a successful save is the array POST stored:
      `JSON.parse(JSON.stringify(winners))` is `winners` as JavaScript built
      it from the request text. */
  lemma SaveThenRead(events: seq<Event>, id: string, ws: seq<Json>)
    requires id != "" && forall k :: 0 <= k < |ws| ==> Complete(ws[k])
    requires EventByBusinessId(events, id).Some?
    ensures var body := JObj([Member("event_id", JStr(id)), Member("winners", JArr(ws))]);
            var o := Save(events, Some(body), true);
            o.reply.status == 200 && Read(o.events, Some(id)).1 == Some(JsObject.Canonical(JArr(ws)))
  {
    var built := JsObject.Canonical(JArr(ws));
    SaveStores(events, id, ws);
    StoredIsFound(events, id, Stringify(built));
    ParseStringify(built);
  }

  /** Read back, each winner answers every key with the last value the
      request gave it, and holds each key once. */
  lemma ReadBackAnswers(events: seq<Event>, id: string, ws: seq<Json>, k: int, key: string)
    requires id != "" && forall j :: 0 <= j < |ws| ==> Complete(ws[j])
    requires EventByBusinessId(events, id).Some? && 0 <= k < |ws|
    ensures var body := JObj([Member("event_id", JStr(id)), Member("winners", JArr(ws))]);
            var read := Read(Save(events, Some(body), true).events, Some(id)).1;
            read.Some? && var back := read.value;
            back.JArr? && |back.items| == |ws| &&
            Get(back.items[k], key) == (if Get(ws[k], key).Some? then Some(JsObject.Canonical(Get(ws[k], key).value)) else None) &&
            (ws[k].JObj? ==> back.items[k].JObj? && DistinctKeys(back.items[k].members))
  {
    SaveThenRead(events, id, ws);
    JsObject.CanonicalGet(ws[k], key);
    if ws[k].JObj? {
      JsObject.CanonicalKeysDistinct(ws[k]);
    }
  }

  /** A winner sent with its name twice is stored with the second name only. */
  lemma RepeatedNameKeepsLast(events: seq<Event>, id: string)
    requires id != "" && EventByBusinessId(events, id).Some?
    ensures var w := JObj([Member("position", JNum(1)), Member("name", JStr("a")), Member("name", JStr("b"))]);
            var body := JObj([Member("event_id", JStr(id)), Member("winners", JArr([w]))]);
            Read(Save(events, Some(body), true).events, Some(id)).1 ==
              Some(JArr([JObj([Member("position", JNum(1)), Member("name", JStr("b"))])]))
  {
    RepeatedNameRead(events, id, JObj([Member("position", JNum(1)), Member("name", JStr("a")), Member("name", JStr("b"))]));
  }

  lemma RepeatedNameRead(events: seq<Event>, id: string, w: Json)
    requires id != "" && EventByBusinessId(events, id).Some?
    requires w == JObj([Member("position", JNum(1)), Member("name", JStr("a")), Member("name", JStr("b"))])
    ensures var body := JObj([Member("event_id", JStr(id)), Member("winners", JArr([w]))]);
            Read(Save(events, Some(body), true).events, Some(id)).1 ==
              Some(JArr([JObj([Member("position", JNum(1)), Member("name", JStr("b"))])]))
  {
    RepeatedNameComplete(w);
    SaveThenRead(events, id, [w]);
    RepeatedNameBuilt(w);
  }

  lemma RepeatedNameBuilt(w: Json)
    requires w == JObj([Member("position", JNum(1)), Member("name", JStr("a")), Member("name", JStr("b"))])
    ensures JsObject.Canonical(JArr([w])) == JArr([JObj([Member("position", JNum(1)), Member("name", JStr("b"))])])
  {
    JsObject.DuplicateKeyKeepsLast();
    assert JsObject.Canonical(JArr([w])).items == [JsObject.Canonical(w)];
  }

  lemma RepeatedNameComplete(w: Json)
    requires w == JObj([Member("position", JNum(1)), Member("name", JStr("a")), Member("name", JStr("b"))])
    ensures Complete(w)
  {
    assert w.members[..2][..1] == [w.members[0]];
  }

  lemma SaveStores(events: seq<Event>, id: string, ws: seq<Json>)
    requires id != "" && forall k :: 0 <= k < |ws| ==> Complete(ws[k])
    requires EventByBusinessId(events, id).Some?
    ensures var body := JObj([Member("event_id", JStr(id)), Member("winners", JArr(ws))]);
            var o := Save(events, Some(body), true);
            o.reply.status == 200 &&
            o.events == WithWinners(events, EventByBusinessId(events, id).value.id, Stringify(JsObject.Canonical(JArr(ws))))
  {
    BodyFields(id, ws);
    assert EqualValues(JStr(id)) == [JStr(id)];
  }

  /** The two fields of the request body `{ event_id, winners }`. */
  lemma BodyFields(id: string, ws: seq<Json>)
    ensures var body := JObj([Member("event_id", JStr(id)), Member("winners", JArr(ws))]);
            Get(body, "event_id") == Some(JStr(id)) && Get(body, "winners") == Some(JArr(ws))
  {
    var body := JObj([Member("event_id", JStr(id)), Member("winners", JArr(ws))]);
    LookupDistinct(body.members, 0);
    LookupDistinct(body.members, 1);
  }

  /** The business-id lookup finds the written event. */
  lemma StoredIsFound(events: seq<Event>, id: string, text: string)
    requires EventByBusinessId(events, id).Some?
    ensures var doc := EventByBusinessId(events, id).value;
            EventByBusinessId(WithWinners(events, doc.id, text), id) == Some(doc.(winners := Some(text)))
  {
    var doc := EventByBusinessId(events, id).value;
    var stored := WithWinners(events, doc.id, text);
    var i := FirstIndex(events, (e: Event) => e.eventId == id).value;
    var k := FirstIndex(stored, (e: Event) => e.eventId == id).value;
    assert k == i;
  }

  /** A `null` among the winners makes the handler throw: the reply is the
      generic 500, not the validation message. */
  lemma NullWinnerThrows(events: seq<Event>, writeOk: bool)
    ensures Save(events, Some(JObj([Member("event_id", JStr("E1")), Member("winners", JArr([JNull]))])), writeOk).reply ==
              Reply(500, false, "Failed to save winners")
  {
    var body := JObj([Member("event_id", JStr("E1")), Member("winners", JArr([JNull]))]);
    LookupDistinct(body.members, 0);
    LookupDistinct(body.members, 1);
  }

  /** Text that does not parse reads back as an empty list. */
  lemma UnparsableReadsEmpty(e: Event)
    requires e.eventId == "E1" && e.winners == Some("TBD")
    ensures Read([e], Some("E1")).1 == Some(JArr([]))
  {
    assert EventByBusinessId([e], "E1") == Some(e);
    assert SkipWs("TBD") == "TBD";
  }
}
