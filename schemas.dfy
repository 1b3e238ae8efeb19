/** The request-body schemas (lib/validations/schemas.ts) as checks over a
    parsed JSON body.  A check either yields the typed request or the first
    issue found: the object test comes first, then the fields in the order
    the schema declares them, which is the order of the issue list whose
    first message the handlers report.  Whether a string is an e-mail address
    is the library's own test and is a parameter here. */
module Schemas {
  import opened Common
  import opened Json

  /** One validation issue, located at the field it concerns. */
  datatype Issue =
    | NotObject
    | Missing(field: string)
    | NotString(field: string)
    | NotArray(field: string)
    | TooSmall(field: string, message: string)
    | BadEmail(field: string)

  /** The message a handler reports for an issue.  The texts of the type
      issues are the validation library's own; the others are the schema's. */
  function Message(i: Issue): string {
    match i
    case NotObject => "Expected object"
    case Missing(_) => "Required"
    case NotString(_) => "Expected string"
    case NotArray(_) => "Expected array"
    case TooSmall(_, m) => m
    case BadEmail(_) => "Invalid email address"
  }

  /** The reply to a refused body when a handler reads
      `error.errors[0].message` without optional chaining: 400 with the
      first issue's message when the validation library's error carries the
      `errors` alias of its issue list (`exposesErrors`); otherwise reading
      `[0]` of `undefined` throws and the handler's catch answers `caught`. */
  function Refused(issue: Issue, exposesErrors: bool, caught: Reply): (r: Reply)
    ensures exposesErrors ==> r == Reply(400, false, Message(issue))
    ensures !exposesErrors ==> r == caught
  {
    if exposesErrors then Reply(400, false, Message(issue)) else caught
  }

  /** The issue concerns the field `key`. */
  predicate AtField(i: Issue, key: string) {
    !i.NotObject? && i.field == key
  }

  datatype Checked<T> = Pass(value: T) | Fail(issue: Issue)

  /** A present string of at least `n` UTF-16 code units (the library
      compares `.length`). */
  predicate StringOfAtLeast(v: Option<Json>, n: nat) {
    v.Some? && v.value.JStr? && Utf16Length(v.value.s) >= n
  }

  /** A present string the e-mail test accepts. */
  predicate EmailString(v: Option<Json>, isEmail: string -> bool) {
    v.Some? && v.value.JStr? && isEmail(v.value.s)
  }

  /** Absent, or a string of at least `n` UTF-16 code units. */
  predicate OptionalStringOfAtLeast(v: Option<Json>, n: nat) {
    v.None? || StringOfAtLeast(v, n)
  }

  // ------------------------------------------------------------ field checks

  /** `z.string().min(n, message)` at `key`. */
  function RequiredString(body: Json, key: string, n: nat, message: string): (r: Checked<string>)
    ensures r.Pass? <==> StringOfAtLeast(Get(body, key), n)
    ensures r.Pass? ==> Get(body, key) == Some(JStr(r.value))
    ensures r.Fail? ==> AtField(r.issue, key) && (r.issue.Missing? || r.issue.NotString? || r.issue == TooSmall(key, message))
  {
    match Get(body, key)
    case None => Fail(Missing(key))
    case Some(v) =>
      if !v.JStr? then Fail(NotString(key))
      else if Utf16Length(v.s) < n then Fail(TooSmall(key, message))
      else Pass(v.s)
  }

  /** `z.string().email(...)` at `key`. */
  function RequiredEmail(body: Json, key: string, isEmail: string -> bool): (r: Checked<string>)
    ensures r.Pass? <==> EmailString(Get(body, key), isEmail)
    ensures r.Pass? ==> Get(body, key) == Some(JStr(r.value))
    ensures r.Fail? ==> AtField(r.issue, key) && (r.issue.Missing? || r.issue.NotString? || r.issue.BadEmail?)
  {
    match Get(body, key)
    case None => Fail(Missing(key))
    case Some(v) =>
      if !v.JStr? then Fail(NotString(key))
      else if !isEmail(v.s) then Fail(BadEmail(key))
      else Pass(v.s)
  }

  /** `z.string().min(n, message).optional()` at `key`: only an absent key
      is allowed to be missing; `null` is a wrong type. */
  function OptionalString(body: Json, key: string, n: nat, message: string): (r: Checked<Option<string>>)
    ensures r.Pass? <==> OptionalStringOfAtLeast(Get(body, key), n)
    ensures r.Pass? && r.value.None? ==> Get(body, key).None?
    ensures r.Pass? && r.value.Some? ==> Get(body, key) == Some(JStr(r.value.value))
    ensures r.Fail? ==> AtField(r.issue, key) && (r.issue.NotString? || r.issue == TooSmall(key, message))
  {
    match Get(body, key)
    case None => Pass(None)
    case Some(v) =>
      if !v.JStr? then Fail(NotString(key))
      else if Utf16Length(v.s) < n then Fail(TooSmall(key, message))
      else Pass(Some(v.s))
  }

  /** `z.string().email(...).optional()` at `key`. */
  function OptionalEmail(body: Json, key: string, isEmail: string -> bool): (r: Checked<Option<string>>)
    ensures r.Pass? <==> Get(body, key).None? || EmailString(Get(body, key), isEmail)
    ensures r.Pass? && r.value.Some? ==> Get(body, key) == Some(JStr(r.value.value))
    ensures r.Fail? ==> AtField(r.issue, key)
  {
    match Get(body, key)
    case None => Pass(None)
    case Some(v) =>
      if !v.JStr? then Fail(NotString(key))
      else if !isEmail(v.s) then Fail(BadEmail(key))
      else Pass(Some(v.s))
  }

  /** Every element is a string. */
  predicate AllStrings(items: seq<Json>) {
    forall i :: 0 <= i < |items| ==> items[i].JStr?
  }

  /** The JSON array elements holding the strings `ss`. */
  function JStrs(ss: seq<string>): (r: seq<Json>)
    ensures |r| == |ss| && forall i :: 0 <= i < |ss| ==> r[i] == JStr(ss[i])
  {
    seq(|ss|, i requires 0 <= i < |ss| => JStr(ss[i]))
  }

  function Strings(items: seq<Json>): (r: seq<string>)
    requires AllStrings(items)
    ensures |r| == |items|
    ensures forall i :: 0 <= i < |items| ==> items[i] == JStr(r[i])
  {
    if items == [] then [] else [items[0].s] + Strings(items[1..])
  }

  /** `z.array(z.string()).min(n, message)` at `key`. */
  function RequiredStringArray(body: Json, key: string, n: nat, message: string): (r: Checked<seq<string>>)
    ensures r.Pass? <==> Get(body, key).Some? && Get(body, key).value.JArr?
                         && |Get(body, key).value.items| >= n && AllStrings(Get(body, key).value.items)
    ensures r.Pass? ==> |r.value| >= n && Get(body, key) == Some(JArr(JStrs(r.value)))
    ensures r.Fail? ==> AtField(r.issue, key)
  {
    match Get(body, key)
    case None => Fail(Missing(key))
    case Some(v) =>
      if !v.JArr? then Fail(NotArray(key))
      else if |v.items| < n then Fail(TooSmall(key, message))
      else if !AllStrings(v.items) then Fail(NotString(key))
      else
        var ss := Strings(v.items);
        assert v.items == JStrs(ss);
        Pass(ss)
  }

  // ----------------------------------------------------------------- schemas

  datatype LoginRequest = LoginRequest(email: string, password: string)

  /** `LoginSchema`. */
  function ParseLogin(body: Json, isEmail: string -> bool): (r: Checked<LoginRequest>)
    ensures r.Pass? <==> body.JObj? && EmailString(Get(body, "email"), isEmail)
                         && StringOfAtLeast(Get(body, "password"), 6)
    ensures r.Pass? ==> Get(body, "email") == Some(JStr(r.value.email))
                        && Get(body, "password") == Some(JStr(r.value.password))
                        && Utf16Length(r.value.password) >= 6 && isEmail(r.value.email)
    ensures !body.JObj? ==> r == Fail(NotObject)
    ensures r.Fail? && body.JObj? && !EmailString(Get(body, "email"), isEmail) ==> AtField(r.issue, "email")
  {
    if !body.JObj? then Fail(NotObject)
    else match RequiredEmail(body, "email", isEmail)
      case Fail(i) => Fail(i)
      case Pass(email) =>
        match RequiredString(body, "password", 6, "Password must be at least 6 characters")
        case Fail(i) => Fail(i)
        case Pass(password) => Pass(LoginRequest(email, password))
  }

  datatype RegisterRequest = RegisterRequest(name: string, email: string, password: string)

  /** `RegisterSchema`. */
  function ParseRegister(body: Json, isEmail: string -> bool): (r: Checked<RegisterRequest>)
    ensures r.Pass? <==> body.JObj? && StringOfAtLeast(Get(body, "name"), 2)
                         && EmailString(Get(body, "email"), isEmail)
                         && StringOfAtLeast(Get(body, "password"), 6)
    ensures r.Pass? ==> Get(body, "name") == Some(JStr(r.value.name))
                        && Get(body, "email") == Some(JStr(r.value.email))
                        && Get(body, "password") == Some(JStr(r.value.password))
                        && Utf16Length(r.value.name) >= 2 && Utf16Length(r.value.password) >= 6
    ensures !body.JObj? ==> r == Fail(NotObject)
    ensures r.Fail? && body.JObj? && !StringOfAtLeast(Get(body, "name"), 2) ==> AtField(r.issue, "name")
  {
    if !body.JObj? then Fail(NotObject)
    else match RequiredString(body, "name", 2, "Name must be at least 2 characters")
      case Fail(i) => Fail(i)
      case Pass(name) =>
        match RequiredEmail(body, "email", isEmail)
        case Fail(i) => Fail(i)
        case Pass(email) =>
          match RequiredString(body, "password", 6, "Password must be at least 6 characters")
          case Fail(i) => Fail(i)
          case Pass(password) => Pass(RegisterRequest(name, email, password))
  }

  datatype ProfileRequest = ProfileRequest(id: string, name: Option<string>, email: Option<string>, password: Option<string>)

  /** `ProfileUpdateSchema`: only `id` is required. */
  function ParseProfileUpdate(body: Json, isEmail: string -> bool): (r: Checked<ProfileRequest>)
    ensures r.Pass? <==> body.JObj? && StringOfAtLeast(Get(body, "id"), 1)
                         && OptionalStringOfAtLeast(Get(body, "name"), 2)
                         && (Get(body, "email").None? || EmailString(Get(body, "email"), isEmail))
                         && OptionalStringOfAtLeast(Get(body, "password"), 6)
    ensures r.Pass? ==> Get(body, "id") == Some(JStr(r.value.id)) && r.value.id != ""
    ensures r.Pass? && r.value.name.Some? ==> Utf16Length(r.value.name.value) >= 2
    ensures r.Pass? && r.value.password.Some? ==> Utf16Length(r.value.password.value) >= 6
    ensures !body.JObj? ==> r == Fail(NotObject)
  {
    if !body.JObj? then Fail(NotObject)
    else match RequiredString(body, "id", 1, "User ID is required")
      case Fail(i) => Fail(i)
      case Pass(id) =>
        match OptionalString(body, "name", 2, "Name must be at least 2 characters")
        case Fail(i) => Fail(i)
        case Pass(name) =>
          match OptionalEmail(body, "email", isEmail)
          case Fail(i) => Fail(i)
          case Pass(email) =>
            match OptionalString(body, "password", 6, "Password must be at least 6 characters")
            case Fail(i) => Fail(i)
            case Pass(password) => Pass(ProfileRequest(id, name, email, password))
  }

  datatype GenerateRequest = GenerateRequest(eventId: string, studIds: seq<string>, teamName: Option<string>)

  /** `GenerateTicketSchema`: a non-empty event id and at least one student
      id; the student ids themselves may be empty strings. */
  function ParseGenerateTicket(body: Json): (r: Checked<GenerateRequest>)
    ensures r.Pass? <==> body.JObj? && StringOfAtLeast(Get(body, "event_id"), 1)
                         && Get(body, "stud_ids").Some? && Get(body, "stud_ids").value.JArr?
                         && |Get(body, "stud_ids").value.items| >= 1
                         && AllStrings(Get(body, "stud_ids").value.items)
                         && OptionalStringOfAtLeast(Get(body, "team_name"), 0)
    ensures r.Pass? ==> Get(body, "event_id") == Some(JStr(r.value.eventId))
                        && r.value.eventId != "" && |r.value.studIds| >= 1
    ensures r.Pass? ==> Get(body, "stud_ids") == Some(JArr(JStrs(r.value.studIds)))
    ensures !body.JObj? ==> r == Fail(NotObject)
  {
    if !body.JObj? then Fail(NotObject)
    else match RequiredString(body, "event_id", 1, "Event ID is required")
      case Fail(i) => Fail(i)
      case Pass(eventId) =>
        match RequiredStringArray(body, "stud_ids", 1, "At least one student ID is required")
        case Fail(i) => Fail(i)
        case Pass(studIds) =>
          match OptionalString(body, "team_name", 0, "")
          case Fail(i) => Fail(i)
          case Pass(teamName) => Pass(GenerateRequest(eventId, studIds, teamName))
  }

  datatype ScanRequest = ScanRequest(ticketId: string, eventId: string)

  /** `ScanTicketSchema`. */
  function ParseScanTicket(body: Json): (r: Checked<ScanRequest>)
    ensures r.Pass? <==> body.JObj? && StringOfAtLeast(Get(body, "ticket_id"), 1)
                         && StringOfAtLeast(Get(body, "event_id"), 1)
    ensures r.Pass? ==> Get(body, "ticket_id") == Some(JStr(r.value.ticketId))
                        && Get(body, "event_id") == Some(JStr(r.value.eventId))
                        && r.value.ticketId != "" && r.value.eventId != ""
    ensures !body.JObj? ==> r == Fail(NotObject)
  {
    if !body.JObj? then Fail(NotObject)
    else match RequiredString(body, "ticket_id", 1, "Ticket ID is required")
      case Fail(i) => Fail(i)
      case Pass(ticketId) =>
        match RequiredString(body, "event_id", 1, "Event ID is required")
        case Fail(i) => Fail(i)
        case Pass(eventId) => Pass(ScanRequest(ticketId, eventId))
  }

  datatype MarkRequest = MarkRequest(ticketId: string, studId: string, eventId: string)

  /** `MarkAttendanceSchema`. */
  function ParseMarkAttendance(body: Json): (r: Checked<MarkRequest>)
    ensures r.Pass? <==> body.JObj? && StringOfAtLeast(Get(body, "ticket_id"), 1)
                         && StringOfAtLeast(Get(body, "stud_id"), 1)
                         && StringOfAtLeast(Get(body, "event_id"), 1)
    ensures r.Pass? ==> Get(body, "ticket_id") == Some(JStr(r.value.ticketId))
                        && Get(body, "stud_id") == Some(JStr(r.value.studId))
                        && Get(body, "event_id") == Some(JStr(r.value.eventId))
                        && r.value.ticketId != "" && r.value.studId != "" && r.value.eventId != ""
    ensures !body.JObj? ==> r == Fail(NotObject)
  {
    if !body.JObj? then Fail(NotObject)
    else match RequiredString(body, "ticket_id", 1, "Ticket ID is required")
      case Fail(i) => Fail(i)
      case Pass(ticketId) =>
        match RequiredString(body, "stud_id", 1, "Student ID is required")
        case Fail(i) => Fail(i)
        case Pass(studId) =>
          match RequiredString(body, "event_id", 1, "Event ID is required")
          case Fail(i) => Fail(i)
          case Pass(eventId) => Pass(MarkRequest(ticketId, studId, eventId))
  }

  /** `CloseTicketSchema`. */
  function ParseCloseTicket(body: Json): (r: Checked<string>)
    ensures r.Pass? <==> body.JObj? && StringOfAtLeast(Get(body, "event_id"), 1)
    ensures r.Pass? ==> Get(body, "event_id") == Some(JStr(r.value)) && r.value != ""
    ensures r.Fail? && body.JObj? ==> AtField(r.issue, "event_id")
    ensures !body.JObj? ==> r == Fail(NotObject)
  {
    if !body.JObj? then Fail(NotObject)
    else RequiredString(body, "event_id", 1, "Event ID is required")
  }

  // ------------------------------------------------------------ consequences

  /** An empty event id is reported with the schema's own message. */
  lemma EmptyEventIdMessage(body: Json)
    requires body == JObj([Member("event_id", JStr(""))])
    ensures ParseCloseTicket(body).Fail?
    ensures Message(ParseCloseTicket(body).issue) == "Event ID is required"
  {
    assert Get(body, "event_id") == Some(JStr(""));
  }

  /** Issuance accepts a list of one empty student id. */
  lemma EmptyStudentIdAccepted(body: Json)
    requires body == JObj([Member("event_id", JStr("e1")), Member("stud_ids", JArr([JStr("")]))])
    ensures ParseGenerateTicket(body) == Pass(GenerateRequest("e1", [""], None))
  {
    assert Get(body, "event_id") == Some(JStr("e1"));
    assert Get(body, "stud_ids") == Some(JArr([JStr("")]));
    assert Get(body, "team_name") == None;
    assert Strings([JStr("")]) == [""];
  }

  /** A profile update may carry the id alone. */
  lemma IdAloneIsAProfileUpdate(body: Json, isEmail: string -> bool)
    requires body == JObj([Member("id", JStr("u1"))])
    ensures ParseProfileUpdate(body, isEmail) == Pass(ProfileRequest("u1", None, None, None))
  {
    assert Get(body, "id") == Some(JStr("u1"));
    assert Get(body, "name") == None && Get(body, "email") == None && Get(body, "password") == None;
  }

  /** An optional field sent as `null` is a type error, not an absence. */
  lemma NullIsNotAbsent(body: Json, isEmail: string -> bool)
    requires body == JObj([Member("id", JStr("u1")), Member("name", JNull)])
    ensures ParseProfileUpdate(body, isEmail) == Fail(NotString("name"))
  {
    assert Get(body, "id") == Some(JStr("u1"));
    assert Get(body, "name") == Some(JNull);
  }

  /** Minimum lengths count UTF-16 code units: a name of one character above
      U+FFFF passes `min(2)`, while one of a single ASCII letter does not. */
  lemma AstralNamePassesMinimum(body: Json, other: Json)
    requires body == JObj([Member("name", JStr("\U{1F600}"))])
    requires other == JObj([Member("name", JStr("a"))])
    ensures RequiredString(body, "name", 2, "Name must be at least 2 characters") == Pass("\U{1F600}")
    ensures RequiredString(other, "name", 2, "Name must be at least 2 characters").Fail?
  {
    assert Get(body, "name") == Some(JStr("\U{1F600}"));
    assert Get(other, "name") == Some(JStr("a"));
    assert Utf16Length("\U{1F600}") == Utf16Length([]) + 2;
    assert Utf16Length("a") == Utf16Length([]) + 1;
  }
}
