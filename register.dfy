/** Student registration (app/api/auth/register/route.ts).  The body is
    validated, the email is trimmed and lower-cased, a user with that email
    already stored is a conflict, and otherwise a user is created with the
    hashed password and empty ticket and certificate lists.  The reply
    exposes the public part of the user only.  The salted hash and the
    fresh document id are parameters, and so is the email check the schema
    applies. */
module Register {
  import opened Common
  import opened Json
  import opened Entities
  import opened Schemas

  /** `StudentPublic`: the user without the password hash. */
  datatype PublicUser = PublicUser(id: string, name: Option<string>, email: Option<string>,
                                   tickets: seq<string>, certificates: seq<string>)

  /** `toPublicUser`, defined identically by the register and login routes. */
  function ToPublic(u: User): (r: PublicUser)
    ensures r.id == u.id && r.name == u.name && r.email == u.email
    ensures u.tickets.Some? ==> r.tickets == u.tickets.value
    ensures u.tickets.None? ==> r.tickets == []
    ensures u.certificates.Some? ==> r.certificates == u.certificates.value
    ensures u.certificates.None? ==> r.certificates == []
  {
    PublicUser(u.id, u.name, u.email,
               if u.tickets.Some? then u.tickets.value else [],
               if u.certificates.Some? then u.certificates.value else [])
  }

  /** `error.errors?.[0]?.message || "Validation Error"`: `exposesErrors`
      says whether the validation library's error carries the `errors`
      alias of its issue list. */
  function ValidationMessage(issue: Issue, exposesErrors: bool): (m: string)
    ensures m != ""
  {
    if exposesErrors && Message(issue) != "" then Message(issue) else "Validation Error"
  }

  /** `email.trim().toLowerCase()` */
  function Normalise(email: string): string {
    Lower(Trim(email))
  }

  /** The users `Query.equal("email", email)` returns. */
  function WithEmail(users: seq<User>, email: string): (r: seq<User>)
    ensures forall k :: 0 <= k < |r| ==> r[k].email == Some(email) && r[k] in users
    ensures |r| == 0 <==> forall k :: 0 <= k < |users| ==> users[k].email != Some(email)
  {
    var r := Filter(users, (u: User) => u.email == Some(email));
    assert forall k :: 0 <= k < |users| && users[k].email == Some(email) ==> users[k] in r;
    assert |r| > 0 ==> r[0] in users && exists k :: 0 <= k < |users| && users[k] == r[0];
    r
  }

  /** No two stored users share an email. */
  predicate DistinctEmails(users: seq<User>) {
    forall i, j :: 0 <= i < j < |users| && users[i].email.Some? ==> users[i].email != users[j].email
  }

  /** The document the handler creates. */
  function NewUser(id: string, name: string, email: string, hashed: string): User {
    User(id, Some(name), Some(email), None, None, None, None, hashed, Some([]), Some([]))
  }

  datatype Outcome = Outcome(status: int, message: string, user: Option<PublicUser>, users: seq<User>)

  /** `POST /api/auth/register`; `body` is `None` when it is not JSON,
      `hashed` is what `hashPassword` returns and `newId` what `ID.unique()`
      returns. */
  function Registered(users: seq<User>, body: Option<Json>, isEmail: string -> bool, exposesErrors: bool,
                      hashed: string, newId: string): (o: Outcome)
    ensures o.status in {200, 400, 409, 500}
    ensures o.status == 200 <==> o.user.Some?
    ensures o.status != 200 ==> o.users == users
  {
    if body.None? then Outcome(500, "", None, users)
    else match ParseRegister(body.value, isEmail)
      case Fail(issue) => Outcome(400, ValidationMessage(issue, exposesErrors), None, users)
      case Pass(req) =>
        var email := Normalise(req.email);
        if |WithEmail(users, email)| > 0 then Outcome(409, "Email already registered", None, users)
        else
          var user := NewUser(newId, req.name, email, hashed);
          Outcome(200, "", Some(ToPublic(user)), users + [user])
  }

  /** The handler on the primary store. */
  method Post(db: Backend, body: Option<Json>, isEmail: string -> bool, exposesErrors: bool, hashed: string, newId: string)
    returns (status: int, message: string, user: Option<PublicUser>)
    modifies db
    ensures var o := Registered(old(db.users), body, isEmail, exposesErrors, hashed, newId);
            status == o.status && message == o.message && user == o.user && db.users == o.users
    ensures db.events == old(db.events) && db.tickets == old(db.tickets) && db.attendance == old(db.attendance)
  {
    if body.None? {
      return 500, "", None;
    }
    var result := ParseRegister(body.value, isEmail);
    if result.Fail? {
      return 400, ValidationMessage(result.issue, exposesErrors), None;
    }
    var email := Normalise(result.value.email);
    var existing := WithEmail(db.users, email);
    if |existing| > 0 {
      return 409, "Email already registered", None;
    }
    var created := NewUser(newId, result.value.name, email, hashed);
    db.users := db.users + [created];
    return 200, "", Some(ToPublic(created));
  }

  // ------------------------------------------------------------- properties

  /** A successful registration stores one user whose email is the
      normalised form of the one sent, with the hash, the name as sent and
      empty lists; the reply shows exactly that user without the hash. */
  lemma StoresNormalisedUser(users: seq<User>, body: Json, isEmail: string -> bool, exposesErrors: bool,
                             hashed: string, newId: string)
    requires Registered(users, Some(body), isEmail, exposesErrors, hashed, newId).status == 200
    ensures var o := Registered(users, Some(body), isEmail, exposesErrors, hashed, newId);
            var sent := Get(body, "email").value.s;
            Get(body, "email").value.JStr? && Get(body, "name").value.JStr? &&
            |o.users| == |users| + 1 && o.users[..|users|] == users &&
            o.users[|users|] == NewUser(newId, Get(body, "name").value.s, Normalise(sent), hashed) &&
            o.user == Some(PublicUser(newId, Some(Get(body, "name").value.s), Some(Normalise(sent)), [], [])) &&
            forall k :: 0 <= k < |users| ==> users[k].email != Some(Normalise(sent))
  {
    var o := Registered(users, Some(body), isEmail, exposesErrors, hashed, newId);
    assert o.users[..|users|] == users;
  }

  /** An email whose normalised form is already stored is a conflict, however
      it is spaced or capitalised, and nothing is written. */
  lemma DuplicateIsConflict(users: seq<User>, body: Json, isEmail: string -> bool, exposesErrors: bool,
                            hashed: string, newId: string, k: nat)
    requires ParseRegister(body, isEmail).Pass?
    requires k < |users| && users[k].email == Some(Normalise(ParseRegister(body, isEmail).value.email))
    ensures Registered(users, Some(body), isEmail, exposesErrors, hashed, newId) ==
              Outcome(409, "Email already registered", None, users)
  {
  }

  /** Registration keeps stored emails distinct and, with a fresh id,
      stored ids distinct. */
  lemma KeepsUsersDistinct(users: seq<User>, body: Json, isEmail: string -> bool, exposesErrors: bool,
                           hashed: string, newId: string)
    requires DistinctEmails(users) && DistinctUserIds(users)
    requires forall k :: 0 <= k < |users| ==> users[k].id != newId
    ensures var o := Registered(users, Some(body), isEmail, exposesErrors, hashed, newId);
            DistinctEmails(o.users) && DistinctUserIds(o.users)
  {
    var o := Registered(users, Some(body), isEmail, exposesErrors, hashed, newId);
    if o.status == 200 {
      var req := ParseRegister(body, isEmail).value;
      var email := Normalise(req.email);
      assert |WithEmail(users, email)| == 0;
      AppendKeepsDistinct(users, NewUser(newId, req.name, email, hashed));
    }
  }

  /** A user whose email and id no stored user has can be appended. */
  lemma AppendKeepsDistinct(users: seq<User>, u: User)
    requires DistinctEmails(users) && DistinctUserIds(users)
    requires forall k :: 0 <= k < |users| ==> users[k].email != u.email && users[k].id != u.id
    ensures DistinctEmails(users + [u]) && DistinctUserIds(users + [u])
  {
    var r := users + [u];
    assert forall k :: 0 <= k < |users| ==> r[k] == users[k];
  }

  /** The public view never depends on the stored password hash. */
  lemma PublicViewHidesPassword(u: User, other: string)
    ensures ToPublic(u) == ToPublic(u.(pass := other))
  {
  }
}
