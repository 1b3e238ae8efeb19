/** The main-coordinator login (app/api/coordinator/main-login/route.ts):
    client IP extraction, the shared login rate limiter (5 attempts per 15
    minutes), an Origin prefix check, a credential check that does not say
    which field was wrong, and on success a cleared limiter entry and two
    session cookies.  The clock, the fresh session token and the password
    hash check are parameters. */
module MainLogin {
  import opened Common
  import opened Json
  import RateLimiter

  const MaxAttempts: int := 5
  const WindowMs: int := 15 * 60 * 1000
  const SevenDaysSeconds: int := 60 * 60 * 24 * 7
  const SevenDaysMs: int := 7 * 24 * 60 * 60 * 1000
  const DefaultId := "admin"
  /** The built-in bcrypt hash used when no password is configured. */
  const DefaultPass := "$2b$10$jmcRdLNVttvAdyBsyjO/zOPvtS/tcDLvSvnnFyZMea8vDRn4QnqL2"

  /** The request headers the handler reads and its body (`None` when the
      body is not JSON). */
  datatype Request = Request(
    forwardedFor: Option<string>,
    realIp: Option<string>,
    origin: Option<string>,
    host: Option<string>,
    body: Option<Json>)

  /** `NEXT_PUBLIC_SITE_URL`, `MAIN_COORDINATOR_ID` and
      `MAIN_COORDINATOR_PASS`. */
  datatype Config = Config(siteUrl: Option<string>, mainId: Option<string>, mainPass: Option<string>)

  datatype Cookie = Cookie(name: string, value: string, maxAge: int)

  datatype Response = Response(
    status: int,
    message: string,
    retryAfter: Option<int>,
    expiresAt: Option<int>,
    cookies: seq<Cookie>)

  /** The response together with the limiter table after the request. */
  datatype Outcome = Outcome(response: Response, table: map<string, RateLimiter.Entry>)

  // ------------------------------------------------------------ client IP

  /** `s.split(",")[0]`: the text before the first comma. */
  function FirstField(s: string): (r: string)
    ensures |r| <= |s| && r == s[..|r|]
    ensures forall i :: 0 <= i < |r| ==> r[i] != ','
    ensures |r| < |s| ==> s[|r|] == ','
  {
    if s == [] || s[0] == ',' then [] else [s[0]] + FirstField(s[1..])
  }

  /** The client IP: the first `x-forwarded-for` entry, trimmed, when that
      header is non-empty; else `x-real-ip` when non-empty; else "unknown". */
  function ClientIp(forwardedFor: Option<string>, realIp: Option<string>): (r: string)
    ensures Common.Truthy(forwardedFor) ==> r == Trim(FirstField(forwardedFor.value))
    ensures !Common.Truthy(forwardedFor) && Common.Truthy(realIp) ==> r == realIp.value
    ensures !Common.Truthy(forwardedFor) && !Common.Truthy(realIp) ==> r == "unknown"
  {
    if Common.Truthy(forwardedFor) then Trim(FirstField(forwardedFor.value)) else OrElse(realIp, "unknown")
  }

  // --------------------------------------------------------------- origin

  /** A missing header is interpolated as "null" in a template string. */
  function HostText(host: Option<string>): string {
    if host.Some? then host.value else "null"
  }

  /** The allowed origin prefixes, after `.filter(Boolean)`. */
  function AllowedOrigins(host: Option<string>, siteUrl: Option<string>): (r: seq<string>)
    ensures "http://localhost:3000" in r && "http://localhost:3001" in r
    ensures forall k :: 0 <= k < |r| ==> r[k] != ""
    ensures Common.Truthy(siteUrl) <==> siteUrl.Some? && siteUrl.value in r && |r| == 5
  {
    ["https://" + HostText(host), "http://" + HostText(host), "http://localhost:3000", "http://localhost:3001"]
      + (if Common.Truthy(siteUrl) then [siteUrl.value] else [])
  }

  /** An absent or empty Origin passes; any other must start with an allowed
      prefix. */
  predicate OriginAccepted(origin: Option<string>, allowed: seq<string>) {
    !Common.Truthy(origin) || exists k :: 0 <= k < |allowed| && StartsWith(origin.value, allowed[k])
  }

  // ---------------------------------------------------------- credentials

  /** `field?.trim()` on a body field: absent or null is blank, a string is
      blank when it trims to nothing, and any other value has no `trim`
      method, so the call throws. */
  datatype Field = Blank | Text(s: string) | NoTrim

  function ReadField(v: Option<Json>): (r: Field)
    ensures r.Text? ==> v == Some(JStr(r.s)) && Trim(r.s) != ""
    ensures r.NoTrim? <==> v.Some? && !v.value.JNull? && !v.value.JStr?
  {
    if v.None? || v.value.JNull? then Blank
    else if v.value.JStr? then (if Trim(v.value.s) == "" then Blank else Text(v.value.s))
    else NoTrim
  }

  /** `trim` removes all JavaScript white space, so a field holding only a
      no-break space and an ideographic space is blank. */
  lemma UnicodeSpaceIsBlank()
    ensures ReadField(Some(JStr("\U{00A0}\U{3000}"))) == Blank
  {
    var field := "\U{00A0}\U{3000}";
    assert IsSpace(field[0]) && IsSpace(field[1]);
    assert field[1..][1..] == [];
    assert TrimStart(field) == [];
  }

  /** The forwarded client address loses a byte-order mark and a line
      separator around it, as `trim` removes them. */
  lemma UnicodeSpaceTrimmedFromIp()
    ensures ClientIp(Some("\U{FEFF}a\U{2028}"), None) == "a"
  {
    var first := "\U{FEFF}a\U{2028}";
    FirstFieldWithoutComma(first);
    var rest := first[1..];
    assert IsSpace(first[0]) && !IsSpace(rest[0]);
    assert TrimStart(first) == rest;
    assert IsSpace(rest[1]) && rest[..1] == "a" && !IsSpace(rest[0]);
    assert TrimEnd(rest) == TrimEnd(rest[..1]);
  }

  lemma FirstFieldWithoutComma(s: string)
    requires forall k :: 0 <= k < |s| ==> s[k] != ','
    ensures FirstField(s) == s
  {
    if s != [] {
      FirstFieldWithoutComma(s[1..]);
    }
  }

  /** The stored password is a bcrypt hash when it starts with "$2", and is
      then checked with `verify`; otherwise it is compared as plain text. */
  predicate PasswordValid(stored: string, given: string, verify: (string, string) -> bool) {
    if StartsWith(stored, "$2") then verify(stored, given) else given == stored
  }

  // ------------------------------------------------------------- responses

  const InvalidCredentials := Response(401, "Invalid credentials", None, None, [])
  const BadOrigin := Response(403, "Invalid request origin", None, None, [])
  const ServerError := Response(500, "", None, None, [])

  function TooManyMessage(minutes: int): string {
    "Too many login attempts. Please try again in " + IntToString(minutes) + " minute"
      + (if minutes != 1 then "s" else "") + "."
  }

  function TooMany(resetTime: int): (r: Response)
    ensures r.status == 429 && r.retryAfter == Some(resetTime)
    ensures r.message == TooManyMessage(CeilDiv(resetTime, 60000))
  {
    Response(429, TooManyMessage(CeilDiv(resetTime, 60000)), Some(resetTime), None, [])
  }

  function Success(token: string, now: int): (r: Response)
    ensures r.status == 200 && r.expiresAt == Some(now + SevenDaysMs)
  {
    Response(200, "", None, Some(now + SevenDaysMs),
             [Cookie("coord_session", token, SevenDaysSeconds), Cookie("coord_type", "main", SevenDaysSeconds)])
  }

  /** The credential part of the handler, after the rate limit and the
      Origin check. */
  function Authenticate(body: Option<Json>, cfg: Config, verify: (string, string) -> bool, token: string, now: int): Response {
    if body.None? || body.value.JNull? then ServerError
    else Decide(ReadField(Get(body.value, "coordinator_id")), ReadField(Get(body.value, "coordinator_pass")),
                cfg, verify, token, now)
  }

  /** The answer for the id and password fields read from a body. */
  function Decide(id: Field, pass: Field, cfg: Config, verify: (string, string) -> bool, token: string, now: int): Response {
    if id.NoTrim? then ServerError
    else if id.Blank? then InvalidCredentials
    else if pass.NoTrim? then ServerError
    else if pass.Blank? then InvalidCredentials
    else if id.s != OrElse(cfg.mainId, DefaultId) || !PasswordValid(OrElse(cfg.mainPass, DefaultPass), pass.s, verify) then
      InvalidCredentials
    else Success(token, now)
  }

  /** `POST /api/coordinator/main-login` against the limiter table. */
  function Login(table: map<string, RateLimiter.Entry>, req: Request, cfg: Config,
                 verify: (string, string) -> bool, token: string, now: int): (o: Outcome)
  {
    var ip := ClientIp(req.forwardedFor, req.realIp);
    var decision := RateLimiter.Check(table, ip, MaxAttempts, WindowMs, now);
    if !decision.allowed then
      Outcome(TooMany(RateLimiter.ResetTime(decision.table, ip, WindowMs, now)), decision.table)
    else if !OriginAccepted(req.origin, AllowedOrigins(req.host, cfg.siteUrl)) then
      Outcome(BadOrigin, decision.table)
    else
      var response := Authenticate(req.body, cfg, verify, token, now);
      if response.status == 200 then Outcome(response, decision.table - {ip})
      else Outcome(response, decision.table)
  }

  /** The handler on the process-wide limiter. */
  method Post(limiter: RateLimiter.LoginLimiter, req: Request, cfg: Config,
              verify: (string, string) -> bool, token: string, now: int) returns (response: Response)
    modifies limiter
    ensures response == Login(old(limiter.attempts), req, cfg, verify, token, now).response
    ensures limiter.attempts == Login(old(limiter.attempts), req, cfg, verify, token, now).table
  {
    var ip := ClientIp(req.forwardedFor, req.realIp);
    var allowed := limiter.CheckRateLimit(ip, MaxAttempts, WindowMs, now);
    if !allowed {
      var resetTime := limiter.GetResetTime(ip, WindowMs, now);
      return TooMany(resetTime);
    }
    if !OriginAccepted(req.origin, AllowedOrigins(req.host, cfg.siteUrl)) {
      return BadOrigin;
    }
    response := Authenticate(req.body, cfg, verify, token, now);
    if response.status == 200 {
      limiter.ClearRateLimit(ip);
    }
  }

  // ------------------------------------------------------------- properties

  /** The rate limit is decided before the body is read: a refused IP gets
      429 whatever it sends, and the table changes as the limiter says. */
  lemma RateLimitPrecedesBody(table: map<string, RateLimiter.Entry>, req: Request, body: Option<Json>, cfg: Config,
                              verify: (string, string) -> bool, token: string, now: int)
    requires !RateLimiter.Check(table, ClientIp(req.forwardedFor, req.realIp), MaxAttempts, WindowMs, now).allowed
    ensures Login(table, req, cfg, verify, token, now) == Login(table, req.(body := body), cfg, verify, token, now)
    ensures Login(table, req, cfg, verify, token, now).response.status == 429
  {
  }

  /** A blank id, a blank password, a wrong id and a wrong password all give
      the same response. */
  lemma RejectionsAreUniform(body: Json, cfg: Config, verify: (string, string) -> bool, token: string, now: int)
    requires !body.JNull?
    requires !ReadField(Get(body, "coordinator_id")).NoTrim? && !ReadField(Get(body, "coordinator_pass")).NoTrim?
    requires var id := ReadField(Get(body, "coordinator_id"));
             var pass := ReadField(Get(body, "coordinator_pass"));
             id.Blank? || pass.Blank? || id.s != OrElse(cfg.mainId, DefaultId) ||
             !PasswordValid(OrElse(cfg.mainPass, DefaultPass), pass.s, verify)
    ensures Authenticate(Some(body), cfg, verify, token, now) == InvalidCredentials
  {
  }

  /** Success needs a body whose id is the configured id, given exactly,
      and whose password is valid; it sets the session and type cookies for
      seven days. */
  lemma SuccessNeedsBothCredentials(body: Option<Json>, cfg: Config, verify: (string, string) -> bool, token: string, now: int)
    ensures var r := Authenticate(body, cfg, verify, token, now);
            r.status == 200 ==>
              body.Some? && ReadField(Get(body.value, "coordinator_id")) == Text(OrElse(cfg.mainId, DefaultId)) &&
              ReadField(Get(body.value, "coordinator_pass")).Text? &&
              PasswordValid(OrElse(cfg.mainPass, DefaultPass), ReadField(Get(body.value, "coordinator_pass")).s, verify) &&
              r.cookies == [Cookie("coord_session", token, SevenDaysSeconds), Cookie("coord_type", "main", SevenDaysSeconds)] &&
              r.expiresAt == Some(now + 604800000)
  {
  }

  /** Conversely, the configured id with a valid password logs in. */
  lemma BothCredentialsSucceed(body: Json, cfg: Config, verify: (string, string) -> bool, token: string, now: int)
    requires ReadField(Get(body, "coordinator_id")) == Text(OrElse(cfg.mainId, DefaultId))
    requires ReadField(Get(body, "coordinator_pass")).Text?
    requires PasswordValid(OrElse(cfg.mainPass, DefaultPass), ReadField(Get(body, "coordinator_pass")).s, verify)
    ensures Authenticate(Some(body), cfg, verify, token, now).status == 200
  {
    var id := ReadField(Get(body, "coordinator_id"));
    var pass := ReadField(Get(body, "coordinator_pass"));
    AuthenticateDecides(body, cfg, verify, token, now);
    DecideSucceeds(id, pass, cfg, verify, token, now);
  }

  lemma AuthenticateDecides(body: Json, cfg: Config, verify: (string, string) -> bool, token: string, now: int)
    requires body.JObj?
    ensures Authenticate(Some(body), cfg, verify, token, now)
         == Decide(ReadField(Get(body, "coordinator_id")), ReadField(Get(body, "coordinator_pass")), cfg, verify, token, now)
  {
  }

  lemma DecideSucceeds(id: Field, pass: Field, cfg: Config, verify: (string, string) -> bool, token: string, now: int)
    requires id == Text(OrElse(cfg.mainId, DefaultId)) && pass.Text?
    requires PasswordValid(OrElse(cfg.mainPass, DefaultPass), pass.s, verify)
    ensures Decide(id, pass, cfg, verify, token, now).status == 200
  {
  }

  /** Only a successful login clears the IP's limiter entry; every other
      outcome leaves the table as the rate-limit check left it. */
  lemma OnlySuccessClears(table: map<string, RateLimiter.Entry>, req: Request, cfg: Config,
                          verify: (string, string) -> bool, token: string, now: int)
    ensures var o := Login(table, req, cfg, verify, token, now);
            var ip := ClientIp(req.forwardedFor, req.realIp);
            var checked := RateLimiter.Check(table, ip, MaxAttempts, WindowMs, now).table;
            (o.response.status == 200 ==> o.table == checked - {ip} && ip !in o.table) &&
            (o.response.status != 200 ==> o.table == checked && ip in o.table)
  {
    var ip := ClientIp(req.forwardedFor, req.realIp);
    var d := RateLimiter.Check(table, ip, MaxAttempts, WindowMs, now);
    if !d.allowed {
      assert TooMany(RateLimiter.ResetTime(d.table, ip, WindowMs, now)).status == 429;
    } else if !OriginAccepted(req.origin, AllowedOrigins(req.host, cfg.siteUrl)) {
      assert BadOrigin.status == 403;
    }
  }

  /** For any Host header and site URL, a present Origin passes exactly when
      it starts with the https or http origin of the Host header, with one
      of the two development origins, or with the configured site URL; an
      absent or empty Origin always passes. */
  lemma OriginRule(origin: string, host: Option<string>, siteUrl: Option<string>)
    requires origin != ""
    ensures OriginAccepted(Some(origin), AllowedOrigins(host, siteUrl)) <==>
              StartsWith(origin, "https://" + HostText(host)) || StartsWith(origin, "http://" + HostText(host)) ||
              StartsWith(origin, "http://localhost:3000") || StartsWith(origin, "http://localhost:3001") ||
              (Common.Truthy(siteUrl) && StartsWith(origin, siteUrl.value))
    ensures OriginAccepted(None, AllowedOrigins(host, siteUrl)) && OriginAccepted(Some(""), AllowedOrigins(host, siteUrl))
  {
    var allowed := AllowedOrigins(host, siteUrl);
    assert allowed[0] == "https://" + HostText(host) && allowed[1] == "http://" + HostText(host);
    assert allowed[2] == "http://localhost:3000" && allowed[3] == "http://localhost:3001";
    if Common.Truthy(siteUrl) {
      assert allowed[4] == siteUrl.value;
    }
  }

  /** Once the rate limit lets the request through, the handler answers 403
      exactly when the Origin check fails: the credential part never
      answers 403. */
  lemma BadOriginIff(table: map<string, RateLimiter.Entry>, req: Request, cfg: Config,
                     verify: (string, string) -> bool, token: string, now: int)
    requires RateLimiter.Check(table, ClientIp(req.forwardedFor, req.realIp), MaxAttempts, WindowMs, now).allowed
    ensures var o := Login(table, req, cfg, verify, token, now);
            (o.response.status == 403 <==> !OriginAccepted(req.origin, AllowedOrigins(req.host, cfg.siteUrl))) &&
            (o.response.status == 403 ==> o.response == BadOrigin)
  {
    var r := Authenticate(req.body, cfg, verify, token, now);
    if req.body.Some? && !req.body.value.JNull? {
      DecideNeverForbids(ReadField(Get(req.body.value, "coordinator_id")), ReadField(Get(req.body.value, "coordinator_pass")),
                         cfg, verify, token, now);
    }
    assert r.status != 403;
  }

  lemma DecideNeverForbids(id: Field, pass: Field, cfg: Config, verify: (string, string) -> bool, token: string, now: int)
    ensures Decide(id, pass, cfg, verify, token, now).status in {200, 401, 500}
  {
  }

  /** The check compares prefixes, so an Origin that merely extends the
      host's own, such as `https://<host>.attacker.example`, passes. */
  lemma PrefixAdmitsLookalike(host: string, siteUrl: Option<string>)
    ensures OriginAccepted(Some("https://" + host + ".attacker.example"), AllowedOrigins(Some(host), siteUrl))
  {
    var origin := "https://" + host + ".attacker.example";
    var allowed := AllowedOrigins(Some(host), siteUrl);
    assert allowed[0] == "https://" + host;
    assert origin[..|allowed[0]|] == allowed[0];
  }

  /** The wait is announced in whole minutes, rounded up, with "minute"
      only for exactly one. */
  lemma MinutesWording()
    ensures TooMany(60000).message == "Too many login attempts. Please try again in 1 minute."
    ensures TooMany(60001).message == "Too many login attempts. Please try again in 2 minutes."
  {
    assert CeilDiv(60000, 60000) == 1;
    assert CeilDiv(60001, 60000) == 2;
  }
}
