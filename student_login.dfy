/** Student login (app/api/auth/login/route.ts).  The body is validated, the
    first user whose stored email equals the given one exactly is checked
    against the password, and the reply carries a fresh token and the public
    view of the user.  The email is not normalised here, although
    registration stores it trimmed and lower-cased.  The bcrypt comparison,
    the email check and the token are parameters. */
module StudentLogin {
  import opened Common
  import opened Json
  import opened Entities
  import opened Schemas
  import opened Register

  datatype Result = Result(status: int, message: string, token: Option<string>, user: Option<PublicUser>)

  function Refusal(status: int, message: string): Result {
    Result(status, message, None, None)
  }

  /** `POST /api/auth/login`; `verify(hash, password)` is the bcrypt
      comparison. */
  function Login(users: seq<User>, body: Option<Json>, isEmail: string -> bool, exposesErrors: bool,
                 verify: (string, string) -> bool, token: string): (r: Result)
    ensures r.status in {200, 400, 401, 404, 500}
    ensures r.status == 200 <==> r.token.Some? && r.user.Some?
    ensures r.status == 200 ==> r.token == Some(token)
  {
    if body.None? then Refusal(500, "")
    else match ParseLogin(body.value, isEmail)
      case Fail(issue) => Refusal(400, ValidationMessage(issue, exposesErrors))
      case Pass(req) =>
        var found := WithEmail(users, req.email);
        if |found| == 0 then Refusal(404, "User not found")
        else if !verify(found[0].pass, req.password) then Refusal(401, "Invalid password")
        else Result(200, "", Some(token), Some(ToPublic(found[0])))
  }

  /** The login request of a client. */
  function Body(email: string, password: string): Json {
    JObj([Member("email", JStr(email)), Member("password", JStr(password))])
  }

  // ------------------------------------------------------------- properties

  /** With stored emails distinct, a well-formed login succeeds exactly when
      a user stores that very email and the password matches its hash; the
      reply is that user's public view. */
  lemma SuccessIff(users: seq<User>, email: string, password: string, isEmail: string -> bool, exposesErrors: bool,
                   verify: (string, string) -> bool, token: string)
    requires DistinctEmails(users) && isEmail(email) && |password| >= 6
    ensures var r := Login(users, Some(Body(email, password)), isEmail, exposesErrors, verify, token);
            r.status == 200 <==> exists k :: 0 <= k < |users| && users[k].email == Some(email) && verify(users[k].pass, password)
    ensures var r := Login(users, Some(Body(email, password)), isEmail, exposesErrors, verify, token);
            forall k :: 0 <= k < |users| && users[k].email == Some(email) ==>
              r.status == (if verify(users[k].pass, password) then 200 else 401) &&
              (r.status == 200 ==> r.user == Some(ToPublic(users[k])))
  {
    var b := Body(email, password);
    LookupDistinct(b.members, 0);
    LookupDistinct(b.members, 1);
    var found := WithEmail(users, email);
    forall k | 0 <= k < |users| && users[k].email == Some(email)
      ensures found[0] == users[k]
    {
      assert |found| > 0;
      var j :| 0 <= j < |users| && users[j] == found[0];
    }
  }

  /** An email the store does not hold exactly gives 404 "User not found". */
  lemma UnknownEmailNotFound(users: seq<User>, email: string, password: string, isEmail: string -> bool,
                             exposesErrors: bool, verify: (string, string) -> bool, token: string)
    requires isEmail(email) && |password| >= 6
    requires forall k :: 0 <= k < |users| ==> users[k].email != Some(email)
    ensures Login(users, Some(Body(email, password)), isEmail, exposesErrors, verify, token) == Refusal(404, "User not found")
  {
    var b := Body(email, password);
    LookupDistinct(b.members, 0);
    LookupDistinct(b.members, 1);
  }

  /** Registering with an email that normalisation changes, say one with a
      capital letter, and then logging in with the email exactly as
      registered is refused with 404: registration stored the lower-cased
      form and login compares exactly. */
  lemma RegisteredCaseIsNotFound(users: seq<User>, name: string, email: string, password: string,
                                 isEmail: string -> bool, exposesErrors: bool, hashed: string, newId: string,
                                 verify: (string, string) -> bool, token: string)
    requires |name| >= 2 && isEmail(email) && |password| >= 6 && Normalise(email) != email
    requires forall k :: 0 <= k < |users| ==> users[k].email != Some(email) && users[k].email != Some(Normalise(email))
    ensures var reg := JObj([Member("name", JStr(name)), Member("email", JStr(email)), Member("password", JStr(password))]);
            var o := Registered(users, Some(reg), isEmail, exposesErrors, hashed, newId);
            o.status == 200 &&
            Login(o.users, Some(Body(email, password)), isEmail, exposesErrors, verify, token) == Refusal(404, "User not found")
  {
    var reg := JObj([Member("name", JStr(name)), Member("email", JStr(email)), Member("password", JStr(password))]);
    var added := NewUser(newId, name, Normalise(email), hashed);
    RegistrationAppends(users, name, email, password, isEmail, exposesErrors, hashed, newId);
    var after := users + [added];
    forall k | 0 <= k < |after|
      ensures after[k].email != Some(email)
    {
      if k == |users| {
        assert after[k] == added;
      } else {
        assert after[k] == users[k];
      }
    }
    UnknownEmailNotFound(after, email, password, isEmail, exposesErrors, verify, token);
  }

  lemma RegistrationAppends(users: seq<User>, name: string, email: string, password: string,
                            isEmail: string -> bool, exposesErrors: bool, hashed: string, newId: string)
    requires |name| >= 2 && isEmail(email) && |password| >= 6
    requires forall k :: 0 <= k < |users| ==> users[k].email != Some(Normalise(email))
    ensures var reg := JObj([Member("name", JStr(name)), Member("email", JStr(email)), Member("password", JStr(password))]);
            var o := Registered(users, Some(reg), isEmail, exposesErrors, hashed, newId);
            o.status == 200 && o.users == users + [NewUser(newId, name, Normalise(email), hashed)]
  {
    var reg := JObj([Member("name", JStr(name)), Member("email", JStr(email)), Member("password", JStr(password))]);
    LookupDistinct(reg.members, 0);
    LookupDistinct(reg.members, 1);
    LookupDistinct(reg.members, 2);
    assert ParseRegister(reg, isEmail) == Pass(RegisterRequest(name, email, password));
  }
}
