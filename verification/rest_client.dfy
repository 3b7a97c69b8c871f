/** The HTTP session: one request at a time, the status check on the answer
    and the session cookies the answer sets. The network is not modelled:
    every request is given the response the server sends back for it. */
module Rest {
  import opened Wrappers
  import opened Errors
  import opened Json
  import opened Cookies

  datatype Verb = Get | Post

  /** A request as it leaves the client: the verb, the URL, the JSON body
      (null for a GET) and the cookies sent with it. */
  datatype Request = Request(verb: Verb, url: string, body: Json, cookies: map<string, string>)

  /** What the server answers: the HTTP status, the header block and the
      decoded body (null when the body is not JSON, as `json_decode` gives). */
  datatype Response = Response(status: int, header: string, body: Json)

  /** The session's cookies after an answer: a 200 replaces them by the
      cookies its header sets, any other status leaves them. */
  function CookiesAfter(cookie: map<string, string>, response: Response): (c: map<string, string>)
    ensures response.status == 200 ==> c == HeaderCookies(response.header)
    ensures response.status != 200 ==> c == cookie
  {
    if response.status == 200 then HeaderCookies(response.header) else cookie
  }

  class RESTClient {
    /** The cookies of the last successful response. */
    var cookie: map<string, string>
    /** Every request sent so far, in order. */
    ghost var sent: seq<Request>

    constructor()
      ensures cookie == map[] && sent == []
    {
      cookie := map[];
      sent := [];
    }

    /** `get`: sends the current cookies and processes the answer. */
    method Get(url: string, response: Response) returns (r: Result<Json, Error>)
      modifies this
      ensures sent == old(sent) + [Request(Verb.Get, url, JNull, old(cookie))]
      ensures response.status == 200 ==> r == Success(response.body) && cookie == HeaderCookies(response.header)
      ensures response.status != 200 ==> r == Failure(ApiError(response.status)) && cookie == old(cookie)
    {
      sent := sent + [Request(Verb.Get, url, JNull, cookie)];
      r := ProcessResponse(response);
    }

    /** `post`: sends `data` as JSON with the current cookies and processes the answer. */
    method Post(url: string, data: Json, response: Response) returns (r: Result<Json, Error>)
      modifies this
      ensures sent == old(sent) + [Request(Verb.Post, url, data, old(cookie))]
      ensures response.status == 200 ==> r == Success(response.body) && cookie == HeaderCookies(response.header)
      ensures response.status != 200 ==> r == Failure(ApiError(response.status)) && cookie == old(cookie)
    {
      sent := sent + [Request(Verb.Post, url, data, cookie)];
      r := ProcessResponse(response);
    }

    /** `processResponse`: on status 200 the cookies of this response replace
        the session's cookies and the decoded body is the result; any other
        status is an API error that leaves the cookies alone. */
    method ProcessResponse(response: Response) returns (r: Result<Json, Error>)
      modifies this`cookie
      ensures response.status == 200 ==> r == Success(response.body) && cookie == HeaderCookies(response.header)
      ensures response.status != 200 ==> r == Failure(ApiError(response.status)) && cookie == old(cookie)
    {
      if response.status == 200 {
        cookie := ParseCookies(response.header);
        r := Success(response.body);
      } else {
        r := Failure(ApiError(response.status));
      }
    }

    /** `parseCookies`: every `Set-Cookie` capture parsed and merged into
        the map in header order, a later name overwriting an earlier one. */
    static method ParseCookies(header: string) returns (cookies: map<string, string>)
      ensures cookies == HeaderCookies(header)
      ensures forall k :: k in cookies ==> exists i :: 0 <= i < |Captures(header)| && k in ParseItem(Captures(header)[i])
    {
      var items := Captures(header);
      cookies := map[];
      for i := 0 to |items|
        invariant cookies == Jar(items[..i])
      {
        assert items[..i + 1][..i] == items[..i];
        cookies := cookies + ParseItem(items[i]);
      }
      assert items[..|items|] == items;
      forall k | k in cookies
        ensures exists i :: 0 <= i < |items| && k in ParseItem(items[i])
      {
        var i := JarKeyOrigin(items, k);
      }
    }
  }

  /** The cookies a header block made of lines sets are those of its
      `Set-Cookie` lines, merged in order. */
  lemma HeaderCookiesOfLines(lines: seq<string>)
    requires forall i :: 0 <= i < |lines| ==> IsLine(lines[i])
    ensures HeaderCookies(JoinLines(lines)) == Jar(LineCaptures(lines))
  {
    CapturesOfLines(lines);
  }
}
