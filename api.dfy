/** The client's API layer: the request interceptor's CSRF rule, the admin
    list query, the error unwrapping of a submission, and the request shapes
    of the public list and the review update. */
module Api {
  import opened Wrappers
  import opened Text
  import FeedbackForm

  // ---------------------------------------------------------------------------
  // CSRF interceptor

  /** What the token request gave: a failure, or a body whose `csrfToken`
      may be missing. */
  datatype TokenFetch = FetchFailed | Fetched(csrfToken: Option<string>)

  /** Only a method spelled exactly "get" or "GET" goes without a token:
      every other method, in any case, needs one. */
  function NeedsCsrfToken(verb: string): (needs: bool)
    ensures Lower(verb) != "get" ==> needs
    ensures verb == "get" || verb == "GET" ==> !needs
    ensures Lower(verb) == "get" && verb != "get" && verb != "GET" ==> needs
  {
    verb != "get" && verb != "GET"
  }

  lemma NeedsCsrfTokenExamples()
    ensures !NeedsCsrfToken("get") && !NeedsCsrfToken("GET")
    ensures NeedsCsrfToken("post") && NeedsCsrfToken("patch") && NeedsCsrfToken("Get")
  {
  }

  /** The part of an outgoing request's configuration the interceptor sees. */
  class RequestConfig {
    var verb: string
    var headers: map<string, string>

    constructor (verb: string, headers: map<string, string>)
      ensures this.verb == verb && this.headers == headers
    {
      this.verb := verb;
      this.headers := headers;
    }
  }

  /** The request interceptor. It fetches a token for every method but "get"
      and "GET" (`fetched` says whether it did), sets `X-CSRFToken` only to a
      non-empty token, and lets the request proceed whatever the fetch gave. */
  method Intercept(config: RequestConfig, fetch: TokenFetch) returns (fetched: bool)
    modifies config`headers
    ensures fetched <==> NeedsCsrfToken(config.verb)
    ensures config.headers ==
      if fetched && fetch.Fetched? && fetch.csrfToken.Some? && fetch.csrfToken.value != ""
      then old(config.headers)["X-CSRFToken" := fetch.csrfToken.value]
      else old(config.headers)
  {
    fetched := false;
    if config.verb != "get" && config.verb != "GET" {
      fetched := true;
      match fetch {
        case FetchFailed =>
        case Fetched(token) =>
          if token.Some? && token.value != "" {
            config.headers := config.headers["X-CSRFToken" := token.value];
          }
      }
    }
  }

  // ---------------------------------------------------------------------------
  // Admin list query

  /** The `is_reviewed` argument: undefined, null, a boolean or a string. */
  datatype ReviewParam = Undefined | Null | Flag(b: bool) | Str(s: string)

  /** The argument of `getAllFeedback`; a missing number or string is `None`. */
  datatype AdminListParams = AdminListParams(page: Option<int>, search: Option<string>, isReviewed: ReviewParam)

  /** The query parameters in the order they were appended. */
  type Query = seq<(string, string)>

  /** `URLSearchParams.get(key)`: the first value under `key`. */
  function Value(q: Query, key: string): Option<string> {
    if q == [] then None
    else if q[0].0 == key then Some(q[0].1)
    else Value(q[1..], key)
  }

  /** Appending a pair leaves earlier keys' values alone and gives a new key
      its value. */
  lemma {:induction false} ValueAppend(q: Query, k: string, v: string, key: string)
    ensures Value(q + [(k, v)], key) ==
      if Value(q, key).Some? then Value(q, key) else if k == key then Some(v) else None
  {
    if q != [] {
      assert (q + [(k, v)])[1..] == q[1..] + [(k, v)];
      ValueAppend(q[1..], k, v, key);
    }
  }

  /** Position of a key in the fixed order page, search, is_reviewed. */
  function Rank(key: string): nat {
    if key == "page" then 0 else if key == "search" then 1 else if key == "is_reviewed" then 2 else 3
  }

  /** The `is_reviewed` pair's value: none for undefined, null or "all";
      "true" for `true` or exactly "true"; "false" for anything else. */
  function ReviewedValue(p: ReviewParam): (v: Option<string>)
    ensures v == None <==> p == Undefined || p == Null || p == Str("all")
    ensures v == Some("true") <==> p == Flag(true) || p == Str("true")
    ensures v.Some? ==> v == Some("true") || v == Some("false")
  {
    if p == Undefined || p == Null || p == Str("all") then None
    else if p == Flag(true) || p == Str("true") then Some("true")
    else Some("false")
  }

  lemma ReviewedValueExamples()
    ensures ReviewedValue(Str("false")) == Some("false") && ReviewedValue(Str("TRUE")) == Some("false")
    ensures ReviewedValue(Str("")) == Some("false") && ReviewedValue(Flag(false)) == Some("false")
    ensures ReviewedValue(Str("ALL")) == Some("false")
  {
  }

  /** The query string of `getAllFeedback`, built by appending in order. Each
      key appears at most once, in the order page, search, is_reviewed; page
      only when given and non-zero, search only when non-empty and unaltered. */
  method AdminListQuery(params: AdminListParams) returns (query: Query)
    ensures forall i, j :: 0 <= i < j < |query| ==> Rank(query[i].0) < Rank(query[j].0)
    ensures forall k :: 0 <= k < |query| ==> Rank(query[k].0) < 3
    ensures Value(query, "page") ==
      if params.page.Some? && params.page.value != 0 then Some(IntToDecimal(params.page.value)) else None
    ensures Value(query, "search") ==
      if params.search.Some? && params.search.value != "" then params.search else None
    ensures Value(query, "is_reviewed") == ReviewedValue(params.isReviewed)
    ensures query == [] <==>
      (params.page.None? || params.page.value == 0) && (params.search.None? || params.search.value == "")
      && ReviewedValue(params.isReviewed) == None
  {
    query := [];
    if params.page.Some? && params.page.value != 0 {
      ValueAppend(query, "page", IntToDecimal(params.page.value), "page");
      ValueAppend(query, "page", IntToDecimal(params.page.value), "search");
      ValueAppend(query, "page", IntToDecimal(params.page.value), "is_reviewed");
      query := query + [("page", IntToDecimal(params.page.value))];
    }
    if params.search.Some? && params.search.value != "" {
      ValueAppend(query, "search", params.search.value, "page");
      ValueAppend(query, "search", params.search.value, "search");
      ValueAppend(query, "search", params.search.value, "is_reviewed");
      query := query + [("search", params.search.value)];
    }
    var p := params.isReviewed;
    if p != Undefined && p != Null && p != Str("all") {
      var v := if p == Flag(true) || p == Str("true") then "true" else "false";
      ValueAppend(query, "is_reviewed", v, "page");
      ValueAppend(query, "is_reviewed", v, "search");
      ValueAppend(query, "is_reviewed", v, "is_reviewed");
      query := query + [("is_reviewed", v)];
    }
  }

  // ---------------------------------------------------------------------------
  // Request shapes

  const PublicFeedbackPrefix := "/feedback/?page="

  /** The path of `getPublicFeedback(page)`: the page, 1 by default, in
      decimal after the prefix. */
  function PublicFeedbackPath(page: Option<int>): (path: string)
    ensures page.None? ==> path == "/feedback/?page=1"
    ensures page.Some? ==> path == PublicFeedbackPrefix + IntToDecimal(page.value)
  {
    PublicFeedbackPrefix + IntToDecimal(page.GetOr(1))
  }

  /** The page number written after the prefix: digits, with a leading '-'
      for a negative number. */
  function PageOf(path: string): (p: Option<int>)
    ensures p.Some? ==> |PublicFeedbackPrefix| < |path| && path[..|PublicFeedbackPrefix|] == PublicFeedbackPrefix
  {
    var n := |PublicFeedbackPrefix|;
    if |path| > n && path[..n] == PublicFeedbackPrefix then
      var t := path[n..];
      if IsDigits(t) then Some(ParseDecimal(t))
      else if |t| > 1 && t[0] == '-' && IsDigits(t[1..]) then Some(-(ParseDecimal(t[1..]) as int))
      else None
    else None
  }

  /** The path names the requested page, and page 1 when none is given. */
  lemma PublicFeedbackPathReadsBack(page: Option<int>)
    ensures PageOf(PublicFeedbackPath(page)) == Some(page.GetOr(1))
  {
    var i := page.GetOr(1);
    var path := PublicFeedbackPath(page);
    var n := |PublicFeedbackPrefix|;
    var t := IntToDecimal(i);
    assert path[..n] == PublicFeedbackPrefix && path[n..] == t;
    if i >= 0 {
      DecimalRoundTrip(i);
    } else {
      DecimalRoundTrip(-i);
      assert t[1..] == NatToDecimal(-i);
      assert !IsDigits(t) by { assert t[0] == '-'; }
    }
  }

  /** A PATCH request of `updateFeedback`. */
  datatype Patch = Patch(path: string, body: seq<(string, bool)>)

  const UpdateMethod := "patch"
  const AdminFeedbackPrefix := "/admin/feedback/"

  /** `updateFeedback(id, {is_reviewed})`: the body holds `is_reviewed` only. */
  function UpdateFeedback(id: int, isReviewed: bool): (r: Patch)
    ensures r.body == [("is_reviewed", isReviewed)]
    ensures |AdminFeedbackPrefix| < |r.path| && r.path[..|AdminFeedbackPrefix|] == AdminFeedbackPrefix
  {
    Patch(AdminFeedbackPrefix + IntToDecimal(id) + "/", [("is_reviewed", isReviewed)])
  }

  /** The id that the server route `admin/feedback/<int:pk>/` reads from a
      path, if it matches: the prefix, then decimal digits (the converter
      accepts nothing else), then a closing slash. */
  function RoutePk(path: string): (r: Option<nat>)
    ensures r.Some? ==> exists d :: IsDigits(d) && path == AdminFeedbackPrefix + d + "/" && r.value == ParseDecimal(d)
  {
    var n := |AdminFeedbackPrefix|;
    if |path| > n + 1 && path[..n] == AdminFeedbackPrefix && path[|path| - 1] == '/'
       && IsDigits(path[n..|path| - 1])
    then
      assert path == AdminFeedbackPrefix + path[n..|path| - 1] + "/";
      Some(ParseDecimal(path[n..|path| - 1]))
    else None
  }

  /** A path made of the prefix, some text and a closing slash matches the
      route exactly when that text is all digits, and then gives their value. */
  lemma RoutePkOfPath(d: string)
    ensures RoutePk(AdminFeedbackPrefix + d + "/") == if IsDigits(d) then Some(ParseDecimal(d)) else None
  {
    var path := AdminFeedbackPrefix + d + "/";
    var n := |AdminFeedbackPrefix|;
    assert path[..n] == AdminFeedbackPrefix;
    assert path[n..|path| - 1] == d;
  }

  /** The update of a non-negative id reaches that id's route; a negative id
      matches no route. Its method is one for which the interceptor requests
      a token. */
  lemma UpdateFeedbackRoutesToId(id: int, isReviewed: bool)
    ensures RoutePk(UpdateFeedback(id, isReviewed).path) == if id >= 0 then Some(id as nat) else None
    ensures NeedsCsrfToken(UpdateMethod)
  {
    var digits := IntToDecimal(id);
    RoutePkOfPath(digits);
    if id >= 0 {
      DecimalRoundTrip(id);
    } else {
      assert digits[0] == '-';
    }
  }

  // ---------------------------------------------------------------------------
  // Submission errors

  /** A response body: field errors, or some other text. */
  datatype ErrorBody = FieldErrors(errors: FeedbackForm.ApiErrors) | PlainText(text: string)

  predicate BodyTruthy(b: ErrorBody) {
    b.FieldErrors? || b.text != ""
  }

  datatype ErrorResponse = ErrorResponse(status: int, data: Option<ErrorBody>)

  /** An error raised by the HTTP client, with the server's response if any. */
  datatype HttpError = HttpError(message: string, response: Option<ErrorResponse>)

  /** What `submitFeedback` throws. */
  datatype Thrown = ServerBody(body: ErrorBody) | Original(error: HttpError)

  /** `submitFeedback`: passes a created record through; on failure rethrows
      the server's response body when there is a truthy one, else the
      original error. */
  function SubmitFeedback<T>(outcome: Result<T, HttpError>): (r: Result<T, Thrown>)
    ensures r.Success? <==> outcome.Success?
    ensures r.Success? ==> r.value == outcome.value
    ensures r.Failure? && r.error.ServerBody? ==>
      outcome.error.response.Some? && outcome.error.response.value.data == Some(r.error.body)
      && BodyTruthy(r.error.body)
    ensures r.Failure? && r.error.Original? ==>
      r.error.error == outcome.error
      && (outcome.error.response.None? || outcome.error.response.value.data.None?
          || !BodyTruthy(outcome.error.response.value.data.value))
  {
    match outcome
    case Success(created) => Success(created)
    case Failure(e) =>
      if e.response.Some? && e.response.value.data.Some? && BodyTruthy(e.response.value.data.value)
      then Failure(ServerBody(e.response.value.data.value))
      else Failure(Original(e))
  }
}
