/** Profile update (app/api/profile/update/route.ts).  There is no schema
    check: the body's `name` and `email` are written as sent, the password
    hash is added only for a truthy password, and the user document named by
    `id` is updated.  Every failure is a reply with `success: false` and the
    status left at 200.  The salted hash of the request's password is a
    parameter. */
module ProfileUpdate {
  import opened Common
  import opened Json
  import opened Entities

  /** `updateData`: `name` and `email` as sent (`None` when the key is
      absent, which serialisation drops) and `pass` when a password is
      given. */
  datatype Patch = Patch(name: Option<Json>, email: Option<Json>, pass: Option<string>)

  /** The patch the handler builds: `{name, email}` and then `pass` for a
      truthy password; a truthy password that is not a string makes the hash
      throw, which is `None`. */
  function PatchOf(body: Json, hashed: string): (r: Option<Patch>)
    ensures r.Some? ==> r.value.name == Get(body, "name") && r.value.email == Get(body, "email")
    ensures r.Some? ==> (r.value.pass.Some? <==> TruthyOpt(Get(body, "password")))
    ensures r.Some? && r.value.pass.Some? ==> r.value.pass.value == hashed
    ensures r.None? <==> TruthyOpt(Get(body, "password")) && !Get(body, "password").value.JStr?
  {
    var password := Get(body, "password");
    if !TruthyOpt(password) then Some(Patch(Get(body, "name"), Get(body, "email"), None))
    else if password.value.JStr? then Some(Patch(Get(body, "name"), Get(body, "email"), Some(hashed)))
    else None
  }

  /** A string attribute after a patch value: absent keeps it, a string
      replaces it, `null` clears it, anything else is refused by the
      store. */
  function Assign(current: Option<string>, sent: Option<Json>): (r: Option<Option<string>>)
    ensures sent.None? ==> r == Some(current)
    ensures r.Some? && sent.Some? ==> (sent.value.JStr? && r.value == Some(sent.value.s)) || (sent.value.JNull? && r.value.None?)
    ensures r.None? <==> sent.Some? && !sent.value.JStr? && !sent.value.JNull?
  {
    match sent
    case None => Some(current)
    case Some(JStr(s)) => Some(Some(s))
    case Some(JNull) => Some(None)
    case Some(_) => None
  }

  /** The user after `updateDocument`, or `None` when the store refuses the
      patch. */
  function Patched(u: User, p: Patch): (r: Option<User>)
    ensures r.Some? ==> r.value == u.(name := r.value.name, email := r.value.email, pass := r.value.pass)
    ensures r.Some? ==> (p.pass.Some? ==> r.value.pass == p.pass.value) && (p.pass.None? ==> r.value.pass == u.pass)
  {
    match (Assign(u.name, p.name), Assign(u.email, p.email))
    case (Some(name), Some(email)) =>
      Some(u.(name := name, email := email, pass := if p.pass.Some? then p.pass.value else u.pass))
    case _ => None
  }

  /** The users with the document `id` replaced. */
  function Replaced(users: seq<User>, id: string, u: User): (r: seq<User>)
    ensures |r| == |users|
    ensures forall k :: 0 <= k < |users| ==> r[k] == if users[k].id == id then u else users[k]
  {
    seq(|users|, k requires 0 <= k < |users| => if users[k].id == id then u else users[k])
  }

  datatype Reply = Updated(id: string, name: Option<string>, email: Option<string>) | Failed

  datatype Outcome = Outcome(status: int, reply: Reply, users: seq<User>)

  /** `POST /api/profile/update`; `body` is `None` when it is not JSON. */
  function Update(users: seq<User>, body: Option<Json>, hashed: string): (o: Outcome)
    ensures o.status == 200
    ensures o.reply.Failed? ==> o.users == users
  {
    if body.None? || body.value.JNull? then Outcome(200, Failed, users)
    else
      var id := Get(body.value, "id");
      match PatchOf(body.value, hashed)
      case None => Outcome(200, Failed, users)
      case Some(patch) =>
        if id.None? then Outcome(200, Failed, users)
        else match GetUser(users, ToText(id.value))
          case None => Outcome(200, Failed, users)
          case Some(u) =>
            match Patched(u, patch)
            case None => Outcome(200, Failed, users)
            case Some(v) => Outcome(200, Updated(v.id, v.name, v.email), Replaced(users, v.id, v))
  }

  /** The first user with document id `id`. */
  function GetUser(users: seq<User>, id: string): (r: Option<User>)
    ensures r.Some? ==> r.value in users && r.value.id == id
    ensures r.None? <==> forall k :: 0 <= k < |users| ==> users[k].id != id
  {
    match UserIndex(users, id)
    case None => None
    case Some(k) => Some(users[k])
  }

  /** The handler on the primary store: the patch is built and then
      extended with the hash. */
  method Post(db: Backend, body: Option<Json>, hashed: string) returns (status: int, reply: Reply)
    modifies db
    ensures var o := Update(old(db.users), body, hashed);
            status == o.status && reply == o.reply && db.users == o.users
    ensures db.events == old(db.events) && db.tickets == old(db.tickets) && db.attendance == old(db.attendance)
  {
    if body.None? || body.value.JNull? {
      return 200, Failed;
    }
    var id := Get(body.value, "id");
    var password := Get(body.value, "password");
    var updateData := Patch(Get(body.value, "name"), Get(body.value, "email"), None);
    if TruthyOpt(password) {
      if !password.value.JStr? {
        return 200, Failed;
      }
      updateData := updateData.(pass := Some(hashed));
    }
    assert PatchOf(body.value, hashed) == Some(updateData);
    if id.None? {
      return 200, Failed;
    }
    var current := GetUser(db.users, ToText(id.value));
    if current.None? {
      return 200, Failed;
    }
    var next := Patched(current.value, updateData);
    if next.None? {
      return 200, Failed;
    }
    db.users := Replaced(db.users, next.value.id, next.value);
    return 200, Updated(next.value.id, next.value.name, next.value.email);
  }

  // ------------------------------------------------------------- properties

  /** A successful update writes `name` and `email` exactly as sent (an
      absent key keeps the stored value), replaces the hash only for a
      truthy password, changes no other field and no other user, and replies
      with the stored id, name and email. */
  lemma WritesAsSent(users: seq<User>, body: Json, hashed: string)
    requires Update(users, Some(body), hashed).reply.Updated?
    ensures var o := Update(users, Some(body), hashed);
            var id := ToText(Get(body, "id").value);
            exists k :: 0 <= k < |users| && users[k].id == id &&
              var v := o.users[k];
              v == users[k].(name := v.name, email := v.email, pass := v.pass) &&
              Assign(users[k].name, Get(body, "name")) == Some(v.name) &&
              Assign(users[k].email, Get(body, "email")) == Some(v.email) &&
              v.pass == (if TruthyOpt(Get(body, "password")) then hashed else users[k].pass) &&
              o.reply == Updated(id, v.name, v.email) &&
              forall j :: 0 <= j < |users| && users[j].id != id ==> o.users[j] == users[j]
  {
    var id := ToText(Get(body, "id").value);
    var k := UserIndex(users, id).value;
    assert users[k].id == id;
  }

  /** No schema is applied: a one-letter name, which the profile schema
      refuses, is stored. */
  lemma NoSchemaCheck(u: User, hashed: string)
    requires u.id == "u1"
    ensures var body := JObj([Member("id", JStr("u1")), Member("name", JStr("A"))]);
            Update([u], Some(body), hashed).users == [u.(name := Some("A"))]
  {
    var body := JObj([Member("id", JStr("u1")), Member("name", JStr("A"))]);
    LookupDistinct(body.members, 0);
    LookupDistinct(body.members, 1);
    assert Get(body, "email").None? && Get(body, "password").None?;
    assert GetUser([u], "u1") == Some(u);
  }

  /** An unknown id fails quietly: status 200, `success: false`, nothing
      written. */
  lemma UnknownIdFails(users: seq<User>, body: Json, hashed: string)
    requires Get(body, "id").Some?
    requires forall k :: 0 <= k < |users| ==> users[k].id != ToText(Get(body, "id").value)
    ensures Update(users, Some(body), hashed) == Outcome(200, Failed, users)
  {
  }

  /** The id need not be a string: the store client puts its text into the
      document path, so `["u1"]` updates user u1. */
  lemma ArrayIdUpdatesItsUser(u: User, hashed: string)
    requires u.id == "u1"
    ensures var body := JObj([Member("id", JArr([JStr("u1")])), Member("name", JStr("Bo"))]);
            var o := Update([u], Some(body), hashed);
            o.reply == Updated("u1", Some("Bo"), u.email) && o.users == [u.(name := Some("Bo"))]
  {
    var body := JObj([Member("id", JArr([JStr("u1")])), Member("name", JStr("Bo"))]);
    LookupDistinct(body.members, 0);
    LookupDistinct(body.members, 1);
    assert Get(body, "email").None? && Get(body, "password").None?;
    assert ToText(JArr([JStr("u1")])) == "u1";
    assert GetUser([u], "u1") == Some(u);
  }
}
