/** The server object: the per-exchange handler that drives the interactor
    through the manipulation pipeline, and the session-wide `failed` flag it
    reports when the script is finished. */
module Server {
  import opened Http
  import opened Inbound
  import opened Outbound
  import opened Exchange

  /** `Interactor.Interaction`: what one exchange notes about the request it
      sent and the response it got. Nothing noted yet is `None`. */
  class Interaction {
    const httpMethod: string
    const path: string
    const index: int
    const url: string
    var request: Option<RecordedRequest>
    var response: Option<ServiceResponse>

    constructor (httpMethod: string, path: string, index: int, url: string)
      ensures this.httpMethod == httpMethod && this.path == path && this.index == index && this.url == url
      ensures request == None && response == None
    {
      this.httpMethod := httpMethod;
      this.path := path;
      this.index := index;
      this.url := url;
      request := None;
      response := None;
    }

    method NoteClientRequestHeadersAndBody(headers: seq<string>, body: Body, contentType: string)
      modifies this
      ensures request == Some(RecordedRequest(headers, body, contentType))
      ensures response == old(response)
    {
      request := Some(RecordedRequest(headers, body, contentType));
    }

    /** What the interactor can read off this interaction once the request is noted. */
    function View(): (v: InteractionView)
      reads this
      requires request.Some?
      ensures v.index == index && v.httpMethod == httpMethod && v.path == path && v.url == url
      ensures v.request == request.value
    {
      InteractionView(index, httpMethod, path, url, request.value)
    }

    method NoteResponseHeadersAndBody(headers: seq<string>, body: Body, statusCode: int, contentType: Option<string>)
      modifies this
      ensures response == Some(ServiceResponse(statusCode, headers, body, contentType))
      ensures request == old(request)
    {
      response := Some(ServiceResponse(statusCode, headers, body, contentType));
    }
  }

  /** The interactor as the server sees it: it hands out interactions, answers
      requests through `respond`, and takes back finished interactions and the
      end-of-script report, which it keeps in the order it gets them. */
  class Interactor {
    const respond: Responder
    var added: seq<Interaction>
    var reports: seq<(int, bool)>

    constructor (respond: Responder)
      ensures this.respond == respond && added == [] && reports == []
    {
      this.respond := respond;
      added := [];
      reports := [];
    }

    method NewInteraction(httpMethod: string, path: string, index: int, url: string) returns (i: Interaction)
      ensures fresh(i)
      ensures i.httpMethod == httpMethod && i.path == path && i.index == index && i.url == url
      ensures i.request == None && i.response == None
    {
      i := new Interaction(httpMethod, path, index, url);
    }

    method GetServiceResponseForRequest(httpMethod: string, url: string, headers: seq<string>,
                                        interaction: Interaction, lowerCaseHeaders: bool)
      returns (u: Upstream)
      requires interaction.request.Some?
      ensures u == respond(httpMethod, url, headers, interaction.View(), lowerCaseHeaders)
    {
      u := respond(httpMethod, url, headers, interaction.View(), lowerCaseHeaders);
    }

    method AddInteraction(interaction: Interaction)
      modifies this
      ensures added == old(added) + [interaction] && reports == old(reports)
    {
      added := added + [interaction];
    }

    method FinishedScript(count: int, failed: bool)
      modifies this
      ensures reports == old(reports) + [(count, failed)] && added == old(added)
    {
      reports := reports + [(count, failed)];
    }
  }

  /** What an interaction handed to `addInteraction` holds: its number, method,
      path and URL, the request as the pipeline sent it on, and the revised
      response. */
  ghost predicate Noted(i: Interaction, config: Config, req: Request, index: int, path: string, url: string,
                        response: ServiceResponse)
    reads i
  {
    i.index == index && i.httpMethod == req.httpMethod && i.path == path && i.url == url &&
    i.request == Some(NotedRequest(config, req)) &&
    i.response == Some(response)
  }

  /** `UndertowServirtiumServer` without the network: the exchange handler and
      the `failed` flag. `interactionNum` is the counter of the superclass. */
  class UndertowServer {
    const interactor: Interactor
    const config: Config
    var failed: bool
    var interactionNum: int

    constructor (config: Config, interactor: Interactor, interactionNum: int)
      ensures this.config == config && this.interactor == interactor
      ensures this.interactionNum == interactionNum
      ensures !failed
    {
      this.config := config;
      this.interactor := interactor;
      this.interactionNum := interactionNum;
      failed := false;
    }

    /** The hooks applied to the response: the surviving headers, the revised
        body, and the Content-Length rewrite, noted on the interaction and
        returned. */
    method ProcessHeadersAndBodyBackFromReal(interaction: Interaction, realResponse: ServiceResponse)
      returns (r: ServiceResponse)
      modifies interaction
      ensures r == Revised(config.manipulations, config.prettyPrint, config.prettify, realResponse)
      ensures interaction.response == Some(r)
      ensures interaction.request == old(interaction.request)
    {
      var m := config.manipulations;
      var newHeaders := KeepHeaders(m.changeSingleHeaderReturnedBackFromServer, realResponse.headers);
      newHeaders := m.changeAllHeadersReturnedBackFromServer(newHeaders);
      r := realResponse;
      if r.body.Text? {
        r := r.(body := Text(m.changeBodyReturnedBackFromServer(r.body.text)));
        if config.prettyPrint {
          var body := config.prettify(r.body.text);
          if body != r.body.text {
            r := r.(body := Text(body));
            newHeaders := RewriteContentLengths(newHeaders, |body|);
          }
        }
      }
      r := r.(headers := newHeaders);
      interaction.NoteResponseHeadersAndBody(r.headers, r.body, r.statusCode, r.contentType);
    }

    /** The request header lines, the request body noted on the interaction, and
        the URL the request goes on to. */
    method PrepareHeadersAndBodyForReal(httpMethod: string, url: string, headers: seq<HeaderValues>,
                                        read: Option<Body>, interaction: Interaction, clientRequestContentType: string)
      returns (requestUrl: string, clientRequestHeaders: seq<string>)
      modifies interaction
      ensures clientRequestHeaders ==
        OutboundHeaders(config.manipulations, httpMethod, config.lowerCaseHeaders, headers)
      ensures interaction.request == Some(RecordedRequest(clientRequestHeaders,
        RequestBody(config.manipulations, config.prettyPrint, config.prettify, read), clientRequestContentType))
      ensures interaction.response == old(interaction.response)
      ensures requestUrl == config.manipulations.changeUrlForRequestToServer(url)
    {
      var m := config.manipulations;
      var clientRequestBody := read;
      if clientRequestBody.Some? && clientRequestBody.value.Text? && config.prettyPrint {
        clientRequestBody := Some(Text(config.prettify(clientRequestBody.value.text)));
      }
      clientRequestHeaders := AssembleHeaders(m, httpMethod, config.lowerCaseHeaders, headers);
      if clientRequestBody.Some? && clientRequestBody.value.Text? {
        clientRequestBody := Some(Text(m.changeBodyForRequestToServer(clientRequestBody.value.text)));
      }
      if clientRequestBody.None? {
        clientRequestBody := Some(Text(""));
      }
      interaction.NoteClientRequestHeadersAndBody(clientRequestHeaders, clientRequestBody.value, clientRequestContentType);
      requestUrl := m.changeUrlForRequestToServer(url);
    }

    /** One exchange. The outcome is the one `Handled` gives for the bumped
        interaction number; `failed` becomes true on the error paths and never
        goes back; an interaction reaches the interactor's `addInteraction`
        exactly when the response came back, with the path as line 51 cuts it,
        the absolute URL, the request and the revised response noted on it. */
    method HandleExchange(req: Request) returns (outcome: Outcome)
      modifies this, interactor
      ensures interactionNum == old(interactionNum) + 1
      ensures outcome == Handled(config, interactor.respond, interactionNum, req)
      ensures failed == (old(failed) || outcome.Fails())
      ensures interactor.reports == old(interactor.reports)
      ensures !(outcome.Served? || outcome.MalformedHeader?) ==> interactor.added == old(interactor.added)
      ensures outcome.Served? || outcome.MalformedHeader? ==>
        |interactor.added| == |old(interactor.added)| + 1 &&
        ProxyUri(req.uri, req.url).Some? && RequestUrl(req).Some? &&
        interactor.added[..|old(interactor.added)|] == old(interactor.added) &&
        Noted(interactor.added[|old(interactor.added)|], config, req, interactionNum,
              ProxyUri(req.uri, req.url).value, RequestUrl(req).value, outcome.response)
    {
      interactionNum := interactionNum + 1;
      var httpMethod := req.httpMethod;
      var uri := ProxyUri(req.uri, req.url);
      if uri.None? {
        return UriRejected;
      }
      var url := NormaliseUrl(req.url, req.hostAndPort, uri.value);
      assert RequestUrl(req) == Some(url);

      if httpMethod == "CONNECT" {
        return ConnectRefused;
      }
      HandledAsksInteractor(config, interactor.respond, interactionNum, req, uri.value, url);
      outcome := Interact(req, uri.value, url);
    }

    /** The part of an exchange past the CONNECT test: a new interaction for
        `path` and `url`, the request pipeline, the interactor's answer to the
        hooked URL and the request header lines, and what follows it. */
    method Interact(req: Request, path: string, url: string) returns (outcome: Outcome)
      modifies this`failed, interactor
      ensures outcome == AfterUpstream(config, interactor.respond(req.httpMethod,
        config.manipulations.changeUrlForRequestToServer(url), RequestHeaders(config, req),
        InteractionView(interactionNum, req.httpMethod, path, url, NotedRequest(config, req)), config.lowerCaseHeaders))
      ensures failed == (old(failed) || outcome.Fails())
      ensures interactor.reports == old(interactor.reports)
      ensures !(outcome.Served? || outcome.MalformedHeader?) ==> interactor.added == old(interactor.added)
      ensures outcome.Served? || outcome.MalformedHeader? ==>
        |interactor.added| == |old(interactor.added)| + 1 &&
        interactor.added[..|old(interactor.added)|] == old(interactor.added) &&
        Noted(interactor.added[|old(interactor.added)|], config, req, interactionNum, path, url, outcome.response)
    {
      var interaction, realResponse := AskInteractor(req, path, url);
      outcome := HandleUpstream(interaction, realResponse);
      if outcome.Served? || outcome.MalformedHeader? {
        assert interactor.added[|old(interactor.added)|] == interaction;
      }
    }

    /** A new interaction for the request, the request pipeline noted on it, and
        the interactor's answer to the hooked URL and header lines. */
    method AskInteractor(req: Request, path: string, url: string) returns (interaction: Interaction, realResponse: Upstream)
      ensures fresh(interaction)
      ensures interaction.httpMethod == req.httpMethod && interaction.path == path
      ensures interaction.index == interactionNum && interaction.url == url
      ensures interaction.request == Some(NotedRequest(config, req))
      ensures interaction.response == None
      ensures realResponse == interactor.respond(req.httpMethod,
        config.manipulations.changeUrlForRequestToServer(url), RequestHeaders(config, req),
        InteractionView(interactionNum, req.httpMethod, path, url, NotedRequest(config, req)), config.lowerCaseHeaders)
    {
      var httpMethod := req.httpMethod;
      interaction := interactor.NewInteraction(httpMethod, path, interactionNum, url);
      var clientRequestContentType := if req.contentType.Some? then req.contentType.value else "";
      var requestUrl, clientRequestHeaders :=
        PrepareHeadersAndBodyForReal(httpMethod, url, req.headers, req.body, interaction, clientRequestContentType);
      realResponse := interactor.GetServiceResponseForRequest(
        httpMethod, requestUrl, clientRequestHeaders, interaction, config.lowerCaseHeaders);
    }

    /** The rest of the exchange once the interactor has answered or thrown: an
        answer goes through the response hooks, is noted on the interaction,
        which goes to `addInteraction`, and its header lines are split for the
        client; a throw, or a header line that cannot be split, sets `failed`. */
    method HandleUpstream(interaction: Interaction, realResponse: Upstream) returns (outcome: Outcome)
      modifies this`failed, interactor, interaction
      ensures outcome == AfterUpstream(config, realResponse)
      ensures failed == (old(failed) || outcome.Fails())
      ensures interactor.reports == old(interactor.reports)
      ensures interaction.request == old(interaction.request)
      ensures !(outcome.Served? || outcome.MalformedHeader?) ==> interactor.added == old(interactor.added)
      ensures outcome.Served? || outcome.MalformedHeader? ==>
        interactor.added == old(interactor.added) + [interaction] && interaction.response == Some(outcome.response)
    {
      match realResponse
      case AssertionFailure(message) =>
        failed := true;
        return AssertionReported(message);
      case Raised(message) =>
        failed := true;
        return Rethrown(message);
      case Returned(response) =>
        var revised := ProcessHeadersAndBodyBackFromReal(interaction, response);
        interactor.AddInteraction(interaction);
        var wire := SplitResponseHeaders(revised.headers);
        if wire.None? {
          failed := true;
          return MalformedHeader(revised);
        }
        return Served(revised, wire.value);
    }

    /** `stop`: the interactor is told the script is finished, with the current
        interaction number and `failed`. */
    method Stop()
      modifies interactor
      ensures interactor.reports == old(interactor.reports) + [(interactionNum, failed)]
      ensures interactor.added == old(interactor.added)
    {
      interactor.FinishedScript(interactionNum, failed);
    }

    /** `finishedScript`: as `Stop`, without stopping the listener. */
    method FinishedScript()
      modifies interactor
      ensures interactor.reports == old(interactor.reports) + [(interactionNum, failed)]
      ensures interactor.added == old(interactor.added)
    {
      interactor.FinishedScript(interactionNum, failed);
    }
  }
}
