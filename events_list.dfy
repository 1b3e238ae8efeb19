/** The public event listing (app/api/events/route.ts): page and limit are
    read with `parseInt` and clamped, the store query is assembled from the
    search parameters, and the reply carries the page of documents with
    `totalPages = ceil(total / limit)`.  The store's answer is a
    parameter. */
module EventsList {
  import opened Common
  import opened Json
  import opened Entities

  // ------------------------------------------------------------- parseInt

  /** The length of the longest prefix of hexadecimal digits. */
  function HexSpan(s: string): (k: nat)
    ensures k <= |s|
    ensures forall i :: 0 <= i < k ==> IsHex(s[i])
    ensures k < |s| ==> !IsHex(s[k])
  {
    if s != [] && IsHex(s[0]) then 1 + HexSpan(s[1..]) else 0
  }

  function HexDigitsValue(ds: string): nat
    requires forall i :: 0 <= i < |ds| ==> IsHex(ds[i])
  {
    if ds == [] then 0 else HexDigitsValue(ds[..|ds| - 1]) * 16 + HexValue(ds[|ds| - 1])
  }

  /** The digits after the sign: a "0x" or "0X" prefix selects base 16. */
  function Magnitude(u: string): (r: Option<nat>)
    ensures r.None? <==> if |u| >= 2 && u[0] == '0' && (u[1] == 'x' || u[1] == 'X') then HexSpan(u[2..]) == 0
                         else DigitSpan(u) == 0
  {
    if |u| >= 2 && u[0] == '0' && (u[1] == 'x' || u[1] == 'X') then
      var k := HexSpan(u[2..]);
      if k == 0 then None else Some(HexDigitsValue(u[2..][..k]))
    else
      var k := DigitSpan(u);
      if k == 0 then None else Some(DigitsValue(u[..k]))
  }

  /** `parseInt(s)` without a radix: leading white space and a sign are
      skipped, the longest run of digits is read and the rest ignored;
      `None` stands for `NaN`. */
  function ParseInt(s: string): (r: Option<int>)
  {
    var t := TrimStart(s);
    if t != [] && t[0] == '-' then
      match Magnitude(t[1..])
      case None => None
      case Some(m) => Some(-(m as int))
    else
      var u := if t != [] && t[0] == '+' then t[1..] else t;
      match Magnitude(u)
      case None => None
      case Some(m) => Some(m)
  }

  // ----------------------------------------------------------- pagination

  /** `Math.max(1, parseInt(page || '1'))`; `None` is `NaN`. */
  function PageOf(param: Option<string>): (r: Option<int>)
    ensures r.Some? ==> r.value >= 1
  {
    match ParseInt(OrElse(param, "1"))
    case None => None
    case Some(n) => Some(Max(1, n))
  }

  /** `Math.min(100, Math.max(1, parseInt(limit || '10')))` */
  function LimitOf(param: Option<string>): (r: Option<int>)
    ensures r.Some? ==> 1 <= r.value <= 100
  {
    match ParseInt(OrElse(param, "10"))
    case None => None
    case Some(n) => Some(Min(100, Max(1, n)))
  }

  /** `(page - 1) * limit` */
  function OffsetOf(page: Option<int>, limit: Option<int>): (r: Option<int>)
    requires page.Some? ==> page.value >= 1
    requires limit.Some? ==> limit.value >= 1
    ensures r.Some? <==> page.Some? && limit.Some?
    ensures r.Some? ==> 0 <= r.value && r.value + limit.value <= page.value * limit.value
  {
    if page.Some? && limit.Some? then
      var skipped := page.value - 1;
      assert skipped * limit.value >= 0;
      assert skipped * limit.value + limit.value == page.value * limit.value;
      Some(skipped * limit.value)
    else None
  }

  // ---------------------------------------------------------------- query

  datatype Query =
    | Limit(count: Option<int>)
    | Offset(skip: Option<int>)
    | OrderDesc(attribute: string)
    | Equal(attribute: string, value: Json)
    | Search(attribute: string, text: string)

  datatype Params = Params(page: Option<string>, limit: Option<string>, search: Option<string>,
                           category: Option<string>, completed: Option<string>)

  /** The trimmed search text, when it is non-empty. */
  function SearchText(p: Params): Option<string> {
    if p.search.Some? && Trim(p.search.value) != "" then Some(Trim(p.search.value)) else None
  }

  predicate FiltersCategory(p: Params) {
    p.category.Some? && p.category.value != "" && p.category.value != "all"
  }

  function SearchClause(p: Params): (r: seq<Query>)
    ensures |r| <= 1
  {
    if SearchText(p).Some? then [Search("event_name", SearchText(p).value)] else []
  }

  function CategoryClause(p: Params): (r: seq<Query>)
    ensures |r| <= 1
  {
    if FiltersCategory(p) then [Equal("category", JStr(p.category.value))] else []
  }

  function CompletedClause(p: Params): (r: seq<Query>)
    ensures |r| <= 1
  {
    if p.completed.Some? then [Equal("completed", JBool(p.completed.value == "true"))] else []
  }

  /** The four clauses every listing sends. */
  function BaseQueries(p: Params): seq<Query> {
    var limit := LimitOf(p.limit);
    [Limit(limit), Offset(OffsetOf(PageOf(p.page), limit)), OrderDesc("$createdAt"), Equal("fest", JStr("brahma"))]
  }

  /** The query list the handler sends, in order. */
  function Queries(p: Params): seq<Query> {
    BaseQueries(p) + SearchClause(p) + CategoryClause(p) + CompletedClause(p)
  }

  /** The query list built by conditional pushes. */
  method BuildQueries(p: Params) returns (queries: seq<Query>)
    ensures queries == Queries(p)
    ensures 4 <= |queries| <= 7
  {
    var page := PageOf(p.page);
    var limit := LimitOf(p.limit);
    queries := [Limit(limit), Offset(OffsetOf(page, limit)), OrderDesc("$createdAt"), Equal("fest", JStr("brahma"))];
    var search := if p.search.Some? then Some(Trim(p.search.value)) else None;
    if search.Some? && |search.value| > 0 {
      queries := queries + [Search("event_name", search.value)];
    }
    assert queries == BaseQueries(p) + SearchClause(p);
    if p.category.Some? && p.category.value != "" && p.category.value != "all" {
      queries := queries + [Equal("category", JStr(p.category.value))];
    }
    assert queries == BaseQueries(p) + SearchClause(p) + CategoryClause(p);
    if p.completed.Some? {
      queries := queries + [Equal("completed", JBool(p.completed.value == "true"))];
    }
  }

  // ---------------------------------------------------------------- reply

  /** What `listDocuments` gives back. */
  datatype StoreResult =
    | Listed(documents: seq<Event>, total: nat)
    | StoreError(code: int, message: string)  // an Appwrite exception
    | Unexpected                              // any other exception

  /** The JSON reply; `None` in a number field is `NaN`, which serialises
      as `null`. */
  datatype Response =
    | Listing(data: seq<Event>, total: nat, page: Option<int>, limit: Option<int>, totalPages: Option<int>)
    | Failure(status: int, error: string)

  /** `Math.ceil(total / limit)`: the fewest pages of `limit` documents
      that hold `total` of them. */
  function TotalPages(total: nat, limit: Option<int>): (r: Option<int>)
    requires limit.Some? ==> limit.value >= 1
    ensures r.Some? <==> limit.Some?
    ensures r.Some? ==> (r.value - 1) * limit.value < total <= r.value * limit.value
  {
    if limit.Some? then Some(CeilDiv(total, limit.value)) else None
  }

  /** `GET /api/events` */
  function List(p: Params, result: StoreResult): (r: Response)
    ensures result.Listed? <==> r.Listing?
    ensures r.Listing? ==> r.data == result.documents && r.total == result.total &&
                           r.page == PageOf(p.page) && r.limit == LimitOf(p.limit)
    ensures r.Listing? ==> r.totalPages == TotalPages(r.total, r.limit)
    ensures r.Failure? ==> r.status != 0 &&
                           (if result.StoreError? && result.code != 0 then r.status == result.code else r.status == 500)
  {
    match result
    case Listed(documents, total) =>
      var limit := LimitOf(p.limit);
      Listing(documents, total, PageOf(p.page), limit, TotalPages(total, limit))
    case StoreError(code, message) => Failure(if code != 0 then code else 500, message)
    case Unexpected => Failure(500, "An unexpected error occurred while fetching events.")
  }

  // ------------------------------------------------------------- properties

  /** `parseInt` reads back the decimal text of a number, ignoring what
      follows a character that cannot continue it. */
  lemma ParseIntOfDecimal(n: nat, rest: string)
    requires rest == [] || (!IsDigit(rest[0]) && rest[0] != 'x' && rest[0] != 'X')
    ensures ParseInt(NatToString(n) + rest) == Some(n)
  {
    var ds := NatToString(n);
    var s := ds + rest;
    NatToStringShape(n);
    assert s[0] == ds[0] && IsDigit(s[0]);
    DecimalMagnitude(ds, rest, s);
    DigitStartIsMagnitude(s);
  }

  /** Text that starts with a digit has no white space or sign to skip. */
  lemma DigitStartIsMagnitude(s: string)
    requires s != [] && IsDigit(s[0])
    ensures Magnitude(s).Some? ==> ParseInt(s) == Some(Magnitude(s).value)
  {
    assert !IsSpace(s[0]) by {
      assert 0x30 <= s[0] as int <= 0x39;
    }
    assert TrimStart(s) == s;
  }

  lemma DecimalMagnitude(ds: string, rest: string, s: string)
    requires ds != [] && s == ds + rest && forall i :: 0 <= i < |ds| ==> IsDigit(ds[i])
    requires rest == [] || (!IsDigit(rest[0]) && rest[0] != 'x' && rest[0] != 'X')
    ensures Magnitude(s) == Some(DigitsValue(ds))
  {
    DigitSpanOfDigits(ds, rest);
    assert s[..|ds|] == ds;
    assert |s| >= 2 ==> s[1] != 'x' && s[1] != 'X' by {
      if |ds| >= 2 { assert s[1] == ds[1]; } else if |s| >= 2 { assert s[1] == rest[0]; }
    }
  }

  /** Absent or empty parameters page from 1 with 10 events per page. */
  lemma Defaults()
    ensures PageOf(None) == Some(1) && PageOf(Some("")) == Some(1)
    ensures LimitOf(None) == Some(10) && LimitOf(Some("")) == Some(10)
  {
    ParsesOne();
    ParsesTen();
  }

  lemma ParsesOne()
    ensures ParseInt("1") == Some(1)
  {
    ParseIntOfDecimal(1, []);
    assert NatToString(1) + [] == "1";
  }

  lemma ParsesTen()
    ensures ParseInt("10") == Some(10)
  {
    ParseIntOfDecimal(10, []);
    TenText();
  }

  lemma TenText()
    ensures NatToString(10) + [] == "10"
  {
    assert NatToString(10) == NatToString(1) + [DigitChar(0)];
  }

  /** A numeric page parameter becomes `max(1, n)` and a numeric limit is
      clamped to [1, 100]. */
  lemma NumericPaging(page: nat, limit: nat)
    ensures PageOf(Some(NatToString(page))) == Some(Max(1, page))
    ensures LimitOf(Some(NatToString(limit))) == Some(Min(100, Max(1, limit)))
  {
    ParseIntOfDecimal(page, []);
    ParseIntOfDecimal(limit, []);
    assert NatToString(page) + [] == NatToString(page);
    assert NatToString(limit) + [] == NatToString(limit);
  }

  lemma InQueries(x: Query, p: Params)
    ensures x in Queries(p) <==> x in BaseQueries(p) || x in SearchClause(p) || x in CategoryClause(p) || x in CompletedClause(p)
  {
    var a, b, c, d := BaseQueries(p), SearchClause(p), CategoryClause(p), CompletedClause(p);
    assert Queries(p) == ((a + b) + c) + d;
    assert x in (a + b) + c <==> x in a + b || x in c;
    assert x in a + b <==> x in a || x in b;
  }

  /** The query always orders by creation and filters on the fest; it
      searches exactly when the trimmed search text is non-empty. */
  lemma SearchClauseIff(p: Params, t: string)
    ensures OrderDesc("$createdAt") in Queries(p) && Equal("fest", JStr("brahma")) in Queries(p)
    ensures Search("event_name", t) in Queries(p) <==> p.search.Some? && Trim(p.search.value) == t && t != ""
  {
    BaseAlwaysSent(p);
    SearchSentIff(p, t);
  }

  lemma BaseAlwaysSent(p: Params)
    ensures OrderDesc("$createdAt") in Queries(p) && Equal("fest", JStr("brahma")) in Queries(p)
  {
    InQueries(OrderDesc("$createdAt"), p);
    InQueries(Equal("fest", JStr("brahma")), p);
    assert BaseQueries(p)[2] == OrderDesc("$createdAt") && BaseQueries(p)[3] == Equal("fest", JStr("brahma"));
  }

  lemma SearchSentIff(p: Params, t: string)
    ensures Search("event_name", t) in Queries(p) <==> SearchText(p) == Some(t)
  {
    var x := Search("event_name", t);
    InQueries(x, p);
    assert x !in BaseQueries(p) && x !in CategoryClause(p) && x !in CompletedClause(p);
  }

  /** The category is filtered exactly when one other than "all" is given. */
  lemma CategoryClauseIff(p: Params, c: string)
    ensures Equal("category", JStr(c)) in Queries(p) <==> p.category == Some(c) && c != "" && c != "all"
  {
    var x := Equal("category", JStr(c));
    InQueries(x, p);
    assert x !in BaseQueries(p) && x !in SearchClause(p) && x !in CompletedClause(p);
  }

  /** `completed` is filtered exactly when the parameter is present, to
      true only for the text "true". */
  lemma CompletedClauseIff(p: Params, b: bool)
    ensures Equal("completed", JBool(b)) in Queries(p) <==> p.completed.Some? && b == (p.completed.value == "true")
  {
    var x := Equal("completed", JBool(b));
    InQueries(x, p);
    BoolNotInBase(x, p);
    assert x !in SearchClause(p) && x !in CategoryClause(p);
  }

  lemma BoolNotInBase(x: Query, p: Params)
    requires x.Equal? && x.value.JBool?
    ensures x !in BaseQueries(p)
  {
  }

  /** Text that does not start with a digit pages as `NaN`, which the
      handler passes on unchanged. */
  lemma NonNumericPage()
    ensures PageOf(Some("last")) == None
    ensures LimitOf(Some("all")) == None
  {
    LetterStartIsNaN("last");
    LetterStartIsNaN("all");
  }

  lemma LetterStartIsNaN(s: string)
    requires s != [] && 'a' <= s[0] <= 'z'
    ensures ParseInt(s) == None
  {
    assert !IsSpace(s[0]) by {
      assert 0x61 <= s[0] as int <= 0x7A;
    }
    assert TrimStart(s) == s;
    assert DigitSpan(s) == 0;
  }
}
