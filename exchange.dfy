/** One exchange handled by the server, as values: the proxy fixes to the
    request URI and URL, the CONNECT short-circuit, the pipeline around the
    interactor's answer, the split of the response header lines written back,
    and the outcome the exchange ends in. */
module Exchange {
  import opened Strings
  import opened Http
  import opened Inbound
  import opened Outbound

  predicate IsAbsolute(s: string) {
    StartsWith(s, "https://") || StartsWith(s, "http://")
  }

  /** The request URI as the server rewrites it for a proxy request, AS WRITTEN:
      when the URI is absolute, it is cut at the first "/" of the URL found from
      position 7 on (the index comes from the URL, the cut is made in the URI).
      `None` where that index is -1 or past the end of the URI, on which Java's
      `substring` throws. */
  function ProxyUri(uri: string, url: string): (r: Option<string>)
    ensures !IsAbsolute(uri) ==> r == Some(uri)
    ensures IsAbsolute(uri) ==> (r.Some? <==> 0 <= IndexOf(url, "/", 7) <= |uri|)
    ensures IsAbsolute(uri) && 0 <= IndexOf(url, "/", 7) <= |uri| ==> r == Some(uri[IndexOf(url, "/", 7)..])
    ensures r.Some? ==> |r.value| <= |uri| && uri[|uri| - |r.value|..] == r.value
  {
    if IsAbsolute(uri) then
      var ix := IndexOf(url, "/", 7);
      if 0 <= ix <= |uri| then Some(uri[ix..]) else None
    else Some(uri)
  }

  /** Position 7 is just past "http://", but inside "https://": for an https
      proxy request the as-written cut keeps the host in the path. */
  lemma ProxyUriKeepsHttpsHost()
    ensures ProxyUri("https://h/p", "https://h/p") == Some("/h/p")
    ensures PathOfProxyUri("https://h/p", "https://h/p") == Some("/p")
  {
    var u := "https://h/p";
    assert StartsWith(u, "https://") by { assert u[..8] == "https://"; }
    assert OccursAt(u, "/", 7) by { assert u[7..8] == "/"; }
    assert IndexOf(u, "/", 7) == 7;
    assert !OccursAt(u, "/", 8) by { assert u[8..9] == "h"; }
    assert OccursAt(u, "/", 9) by { assert u[9..10] == "/"; }
    assert IndexOf(u, "/", 9) == 9;
    assert IndexOf(u, "/", 8) == 9;
    assert u[7..] == "/h/p";
    assert u[9..] == "/p";
  }

  /** Where the authority of an absolute URL starts: past "https://" or "http://". */
  function SchemeLength(url: string): nat {
    if StartsWith(url, "https://") then 8 else 7
  }

  /** The request URI rewritten for a proxy request, CORRECTED: the "/" that
      starts the path is looked for past the whole scheme, so an https URI loses
      its host as an http URI does. Otherwise as `ProxyUri`. */
  function PathOfProxyUri(uri: string, url: string): (r: Option<string>)
    ensures !IsAbsolute(uri) ==> r == Some(uri)
    ensures IsAbsolute(uri) ==> (r.Some? <==> 0 <= IndexOf(url, "/", SchemeLength(url)) <= |uri|)
    ensures IsAbsolute(uri) && 0 <= IndexOf(url, "/", SchemeLength(url)) <= |uri| ==>
      r == Some(uri[IndexOf(url, "/", SchemeLength(url))..])
    ensures r.Some? ==> |r.value| <= |uri| && uri[|uri| - |r.value|..] == r.value
  {
    if IsAbsolute(uri) then
      var ix := IndexOf(url, "/", SchemeLength(url));
      if 0 <= ix <= |uri| then Some(uri[ix..]) else None
    else Some(uri)
  }

  /** For a proxy request whose URI is the absolute URL, the corrected rewrite
      leaves exactly the path: it starts with "/", and what was cut off is the
      scheme and an authority that holds no "/". */
  lemma PathOfProxyUriIsPath(u: string)
    requires IsAbsolute(u)
    requires IndexOf(u, "/", SchemeLength(u)) != -1
    ensures PathOfProxyUri(u, u).Some?
    ensures var p := PathOfProxyUri(u, u).value;
      p != [] && p[0] == '/' &&
      u == u[..|u| - |p|] + p &&
      SchemeLength(u) <= |u| - |p| &&
      forall k :: SchemeLength(u) <= k < |u| - |p| ==> u[k] != '/'
  {
    var start := SchemeLength(u);
    var ix := IndexOf(u, "/", start);
    assert u[ix..ix + 1] == "/";
    forall k | start <= k < ix ensures u[k] != '/' {
      assert !OccursAt(u, "/", k);
      assert u[k..k + 1] == [u[k]];
    }
  }

  /** On http URLs the correction changes nothing. */
  lemma PathOfProxyUriAgreesOnHttp(uri: string, url: string)
    requires StartsWith(url, "http://")
    ensures PathOfProxyUri(uri, url) == ProxyUri(uri, url)
  {
    assert url[..7][4] == ':';
    assert !StartsWith(url, "https://");
  }

  /** The request URL made absolute: kept when it starts with "http://" or
      "https://", otherwise "http://" + host and port + the URI. */
  function NormaliseUrl(url: string, hostAndPort: string, uri: string): (r: string)
    ensures IsAbsolute(r)
    ensures IsAbsolute(url) ==> r == url
    ensures !IsAbsolute(url) ==> r == "http://" + hostAndPort + uri
  {
    if StartsWith(url, "http://") || StartsWith(url, "https://") then url
    else
      var r := "http://" + hostAndPort + uri;
      assert r[..7] == "http://";
      r
  }

  /** The loop that writes the response header lines back, cutting each at its
      first ": " into name and value; `None` at the first line without one, where
      the Java code throws. */
  method SplitResponseHeaders(headers: seq<string>) returns (wire: Option<seq<(string, string)>>)
    ensures wire == SplitAll(headers)
  {
    var pairs := [];
    var i := 0;
    while i < |headers|
      invariant 0 <= i <= |headers|
      invariant SplitAll(headers[..i]) == Some(pairs)
    {
      var header := headers[i];
      var ix := IndexOf(header, Separator, 0);
      if ix < 0 {
        SplitAllMeaning(headers);
        assert SplitHeader(headers[i]).None?;
        return None;
      }
      var hdrKey := header[..ix];
      var hdrVal := header[ix + 2..];
      assert headers[..i + 1][..i] == headers[..i];
      pairs := pairs + [(hdrKey, hdrVal)];
      i := i + 1;
    }
    assert headers[..|headers|] == headers;
    wire := Some(pairs);
  }

  /** The settings of the server that the pipeline reads: the hooks, whether
      header names are lower-cased, whether text bodies are pretty-printed, and
      the pretty-printer. */
  datatype Config = Config(
    manipulations: Manipulations,
    lowerCaseHeaders: bool,
    prettyPrint: bool,
    prettify: string -> string)

  /** A request as the front end decodes it: what was read off the body is
      `None` when nothing was available. */
  datatype Request = Request(
    httpMethod: string,
    uri: string,
    url: string,
    hostAndPort: string,
    headers: seq<HeaderValues>,
    contentType: Option<string>,
    body: Option<Body>)

  /** What the interactor's `getServiceResponseForRequest` does: answer, or throw
      an `AssertionError`, or throw anything else. */
  datatype Upstream =
    | Returned(response: ServiceResponse)
    | AssertionFailure(message: string)
    | Raised(message: string)

  /** The request as noted on an interaction: header lines, body, content type. */
  datatype RecordedRequest = RecordedRequest(headers: seq<string>, body: Body, contentType: string)

  /** What the interactor can read off the interaction it is handed: number,
      method, path, URL and the request noted on it. */
  datatype InteractionView = InteractionView(index: int, httpMethod: string, path: string, url: string,
                                             request: RecordedRequest)

  /** The interactor's answer for a method, the URL the request goes on to, the
      request header lines, the interaction and the lower-case setting. */
  type Responder = (string, string, seq<string>, InteractionView, bool) -> Upstream

  /** How an exchange ends. */
  datatype Outcome =
    | UriRejected                                                // the URI cut threw, before the try
    | ConnectRefused                                             // 500, CONNECT is not supported
    | Served(response: ServiceResponse, wire: seq<(string, string)>)
    | AssertionReported(message: string)                         // 500, AssertionError caught
    | Rethrown(message: string)                                  // 500, then the Throwable is rethrown
    | MalformedHeader(response: ServiceResponse)                 // a header line without ": " threw
  {
    /** The outcomes that set the server's `failed` flag. */
    predicate Fails() {
      AssertionReported? || Rethrown? || MalformedHeader?
    }
  }

  /** The header lines the request goes on with. */
  function RequestHeaders(c: Config, r: Request): seq<string> {
    OutboundHeaders(c.manipulations, r.httpMethod, c.lowerCaseHeaders, r.headers)
  }

  /** The request noted on the interaction before the interactor is asked: the
      header lines, the body after the request hooks, and the content type
      ("" when there is none). */
  function NotedRequest(c: Config, r: Request): RecordedRequest {
    RecordedRequest(RequestHeaders(c, r),
      RequestBody(c.manipulations, c.prettyPrint, c.prettify, r.body),
      if r.contentType.Some? then r.contentType.value else "")
  }

  /** The URL the request goes on to, once the URI (cut as line 51 does it) and
      the URL are fixed; `None` where the URI cut throws. */
  function RequestUrl(r: Request): (u: Option<string>)
    ensures u.None? <==> ProxyUri(r.uri, r.url).None?
    ensures u.Some? ==> IsAbsolute(u.value)
    ensures u.Some? && IsAbsolute(r.url) ==> u.value == r.url
    ensures u.Some? && !IsAbsolute(r.url) ==> u.value == "http://" + r.hostAndPort + ProxyUri(r.uri, r.url).value
  {
    match ProxyUri(r.uri, r.url)
    case None => None
    case Some(uri) => Some(NormaliseUrl(r.url, r.hostAndPort, uri))
  }

  /** The outcome of the exchange with interaction number `index`: rejected
      exactly when the URI cut throws, refused exactly for a CONNECT request
      that got past it, and failing only once the interactor has been asked. */
  function Handled(c: Config, respond: Responder, index: int, r: Request): (o: Outcome)
    ensures o.UriRejected? <==> RequestUrl(r).None?
    ensures o.ConnectRefused? <==> RequestUrl(r).Some? && r.httpMethod == "CONNECT"
    ensures o.Fails() || o.Served? ==> RequestUrl(r).Some? && r.httpMethod != "CONNECT"
  {
    match RequestUrl(r)
    case None => UriRejected
    case Some(url) =>
      if r.httpMethod == "CONNECT" then ConnectRefused
      else
        var requestUrl := c.manipulations.changeUrlForRequestToServer(url);
        var interaction := InteractionView(index, r.httpMethod, ProxyUri(r.uri, r.url).value, url, NotedRequest(c, r));
        AfterUpstream(c, respond(r.httpMethod, requestUrl, RequestHeaders(c, r), interaction, c.lowerCaseHeaders))
  }

  /** How the exchange ends once the interactor has answered or thrown: a throw
      is reported with its message, an answer is revised and served when all of
      its header lines split, and every path but a served answer fails. */
  function AfterUpstream(c: Config, upstream: Upstream): (o: Outcome)
    ensures upstream.AssertionFailure? ==> o == AssertionReported(upstream.message)
    ensures upstream.Raised? ==> o == Rethrown(upstream.message)
    ensures upstream.Returned? ==>
      (o.Served? || o.MalformedHeader?) &&
      o.response == Revised(c.manipulations, c.prettyPrint, c.prettify, upstream.response)
    ensures upstream.Returned? ==> (o.Served? <==> SplitAll(o.response.headers).Some?)
    ensures o.Served? ==> SplitAll(o.response.headers) == Some(o.wire)
    ensures o.Fails() <==> !o.Served?
  {
    match upstream
    case AssertionFailure(message) => AssertionReported(message)
    case Raised(message) => Rethrown(message)
    case Returned(response) =>
      var revised := Revised(c.manipulations, c.prettyPrint, c.prettify, response);
      match SplitAll(revised.headers)
      case None => MalformedHeader(revised)
      case Some(wire) => Served(revised, wire)
  }

  /** A CONNECT request whose URI survives the cut is refused before the
      interactor is asked: the outcome is the same whatever the interactor would
      answer, and it does not set `failed`. */
  lemma ConnectShortCircuit(c: Config, respond: Responder, other: Responder, index: int, r: Request)
    requires RequestUrl(r).Some? && r.httpMethod == "CONNECT"
    ensures Handled(c, respond, index, r) == ConnectRefused
    ensures !Handled(c, respond, index, r).Fails()
    ensures Handled(c, respond, index, r) == Handled(c, other, index, r)
  {
  }

  /** Past the URI cut and the CONNECT test, the exchange ends as the
      interactor's answer makes it end: the answer to the hooked URL and the
      request header lines, for an interaction holding the cut path, the URL
      and the noted request. */
  lemma HandledAsksInteractor(c: Config, respond: Responder, index: int, r: Request, path: string, url: string)
    requires ProxyUri(r.uri, r.url) == Some(path)
    requires RequestUrl(r) == Some(url) && r.httpMethod != "CONNECT"
    ensures Handled(c, respond, index, r) == AfterUpstream(c, respond(r.httpMethod,
      c.manipulations.changeUrlForRequestToServer(url), RequestHeaders(c, r),
      InteractionView(index, r.httpMethod, path, url, NotedRequest(c, r)), c.lowerCaseHeaders))
  {
  }

  /** A served exchange writes one name/value pair per header line of the
      revised response, in order, each of which joins back into its line. */
  lemma ServedWireMatchesHeaders(c: Config, respond: Responder, index: int, r: Request)
    requires Handled(c, respond, index, r).Served?
    ensures var o := Handled(c, respond, index, r);
      |o.wire| == |o.response.headers| &&
      forall k :: 0 <= k < |o.wire| ==> o.wire[k].0 + Separator + o.wire[k].1 == o.response.headers[k]
  {
    var o := Handled(c, respond, index, r);
    SplitAllMeaning(o.response.headers);
  }

  /** With hooks that change nothing and a pretty-printer that leaves the
      response body as it is, a non-CONNECT
      request gets the interactor's response back unchanged: the headers it
      sent upstream are one line per value, and every well-formed response
      header is written back as it came. */
  lemma NoOpExchangeServesUpstream(c: Config, respond: Responder, index: int, r: Request, response: ServiceResponse)
    requires forall n, v :: c.manipulations.headerReplacement(n, v) == v
    requires forall verb, line, hs :: c.manipulations.changeSingleHeaderForRequestToServer(verb, line, hs) == hs
    requires forall hs :: c.manipulations.changeAllHeadersForRequestToServer(hs) == hs
    requires forall u :: c.manipulations.changeUrlForRequestToServer(u) == u
    requires forall i, h :: c.manipulations.changeSingleHeaderReturnedBackFromServer(i, h) == Some(h)
    requires forall hs :: c.manipulations.changeAllHeadersReturnedBackFromServer(hs) == hs
    requires forall b :: c.manipulations.changeBodyReturnedBackFromServer(b) == b
    requires response.body.Text? && c.prettyPrint ==> c.prettify(response.body.text) == response.body.text
    requires RequestUrl(r).Some? && r.httpMethod != "CONNECT"
    requires respond(r.httpMethod, RequestUrl(r).value, Lines(c.manipulations, c.lowerCaseHeaders, r.headers),
                     InteractionView(index, r.httpMethod, ProxyUri(r.uri, r.url).value, RequestUrl(r).value,
                                     NotedRequest(c, r)),
                     c.lowerCaseHeaders) == Returned(response)
    requires forall k :: 0 <= k < |response.headers| ==> !NoSeparator(response.headers[k])
    ensures Handled(c, respond, index, r).Served?
    ensures Handled(c, respond, index, r).response == response
  {
    AddHeadersAppends(c.manipulations, r.httpMethod, c.lowerCaseHeaders, r.headers, []);
    assert RequestHeaders(c, r) == Lines(c.manipulations, c.lowerCaseHeaders, r.headers);
    NoOpRevisionIsIdentity(c.manipulations, c.prettyPrint, c.prettify, response);
    SplitAllMeaning(response.headers);
  }
}
