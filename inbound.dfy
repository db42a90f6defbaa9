/** The response side of the manipulation pipeline: the hooks applied to what
    comes back from the real service (or the script), the Content-Length
    rewrite after pretty-printing, and the revised response. */
module Inbound {
  import opened Strings
  import opened Http

  /** What the single-header hook keeps, in order: the loop that fills `newHeaders`. */
  function Kept(hook: (int, string) -> Option<string>, hs: seq<string>): (r: seq<string>)
    ensures |r| <= |hs|
  {
    if hs == [] then []
    else
      var i := |hs| - 1;
      match hook(i, hs[i])
      case None => Kept(hook, hs[..i])
      case Some(h) => Kept(hook, hs[..i]) + [h]
  }

  /** The positions of the headers the single-header hook does not drop, in order. */
  function Survivors(hook: (int, string) -> Option<string>, hs: seq<string>): seq<nat>
  {
    if hs == [] then []
    else
      var i := |hs| - 1;
      if hook(i, hs[i]).Some? then Survivors(hook, hs[..i]) + [i] else Survivors(hook, hs[..i])
  }

  /** Drop semantics: a header whose hook result is `None` is gone; every other
      header contributes its hook result exactly once, in its original relative
      order. */
  lemma {:induction false} KeptIsOrderedSurvivors(hook: (int, string) -> Option<string>, hs: seq<string>)
    ensures var r, ix := Kept(hook, hs), Survivors(hook, hs);
      |r| == |ix| &&
      (forall k :: 0 <= k < |ix| ==> ix[k] < |hs| && hook(ix[k], hs[ix[k]]) == Some(r[k])) &&
      (forall j, k :: 0 <= j < k < |ix| ==> ix[j] < ix[k]) &&
      (forall i :: 0 <= i < |hs| ==> (i in ix <==> hook(i, hs[i]).Some?))
  {
    if hs != [] {
      var i := |hs| - 1;
      var init := hs[..i];
      KeptIsOrderedSurvivors(hook, init);
      assert forall j :: 0 <= j < i ==> init[j] == hs[j];
    }
  }

  /** A hook that keeps every header as it is leaves the list as it is. */
  lemma {:induction false} KeptAll(hook: (int, string) -> Option<string>, hs: seq<string>)
    requires forall i, h :: hook(i, h) == Some(h)
    ensures Kept(hook, hs) == hs
  {
    if hs != [] {
      var i := |hs| - 1;
      KeptAll(hook, hs[..i]);
      assert hs[..i] + [hs[i]] == hs;
    }
  }

  /** The loop over the response headers, by index, that collects what the
      single-header hook returns and skips what it drops. */
  method KeepHeaders(hook: (int, string) -> Option<string>, headers: seq<string>)
    returns (newHeaders: seq<string>)
    ensures newHeaders == Kept(hook, headers)
  {
    newHeaders := [];
    var i := 0;
    while i < |headers|
      invariant 0 <= i <= |headers|
      invariant newHeaders == Kept(hook, headers[..i])
    {
      var potentiallyChangedHeader := hook(i, headers[i]);
      assert headers[..i + 1][..i] == headers[..i];
      if potentiallyChangedHeader.Some? {
        newHeaders := newHeaders + [potentiallyChangedHeader.value];
      }
      i := i + 1;
    }
    assert headers[..|headers|] == headers;
  }

  const ContentLength := "Content-Length"

  /** The line written in place of a Content-Length header for a body of `length` characters. */
  function ContentLengthLine(length: nat): string {
    ContentLength + Separator + Decimal(length)
  }

  function RewriteHeader(h: string, length: nat): string {
    if StartsWith(h, ContentLength) then ContentLengthLine(length) else h
  }

  /** The headers after the Content-Length rewrite. */
  function Rewritten(hs: seq<string>, length: nat): (r: seq<string>)
    ensures |r| == |hs|
  {
    if hs == [] then [] else Rewritten(hs[..|hs| - 1], length) + [RewriteHeader(hs[|hs| - 1], length)]
  }

  /** The rewrite keeps the number and order of the headers, replaces every
      header starting with "Content-Length" by "Content-Length: <length>", and
      leaves every other header untouched. */
  lemma {:induction false} RewrittenPointwise(hs: seq<string>, length: nat)
    ensures |Rewritten(hs, length)| == |hs|
    ensures forall k :: 0 <= k < |hs| ==>
      Rewritten(hs, length)[k] == if StartsWith(hs[k], ContentLength) then ContentLengthLine(length) else hs[k]
  {
    if hs != [] {
      var init := hs[..|hs| - 1];
      RewrittenPointwise(init, length);
      assert forall k :: 0 <= k < |init| ==> init[k] == hs[k];
    }
  }

  /** A rewritten Content-Length line splits into the name "Content-Length" and
      a decimal value that reads back as the body length. */
  lemma ContentLengthLineReadsBack(length: nat)
    ensures StartsWith(ContentLengthLine(length), ContentLength)
    ensures SplitHeader(ContentLengthLine(length)) == Some((ContentLength, Decimal(length)))
    ensures DecimalValue(Decimal(length)) == length
  {
    assert ContentLengthLine(length)[..|ContentLength|] == ContentLength;
    assert NoSeparator(ContentLength) by {
      forall k: nat | k < |ContentLength| ensures !OccursAt(ContentLength, Separator, k) {
        if k + 2 <= |ContentLength| {
          assert ContentLength[k + 1] != ' ';
        }
      }
    }
    SplitJoin(ContentLength, Decimal(length));
    DecimalRoundTrip(length);
  }

  /** Rewriting twice with the same length is rewriting once. */
  lemma RewriteIdempotent(hs: seq<string>, length: nat)
    ensures Rewritten(Rewritten(hs, length), length) == Rewritten(hs, length)
  {
  }

  /** The loop that builds `tmp` from `newHeaders`, rewriting Content-Length headers. */
  method RewriteContentLengths(newHeaders: seq<string>, length: nat) returns (tmp: seq<string>)
    ensures tmp == Rewritten(newHeaders, length)
  {
    tmp := [];
    var i := 0;
    while i < |newHeaders|
      invariant 0 <= i <= |newHeaders|
      invariant tmp == Rewritten(newHeaders[..i], length)
    {
      var header := newHeaders[i];
      assert newHeaders[..i + 1][..i] == newHeaders[..i];
      if StartsWith(header, ContentLength) {
        tmp := tmp + [ContentLength + Separator + Decimal(length)];
      } else {
        tmp := tmp + [header];
      }
      i := i + 1;
    }
    assert newHeaders[..|newHeaders|] == newHeaders;
  }

  /** The response after the inbound hooks and the optional pretty-printing:
      the surviving headers go through the all-headers hook, a text body through
      the body hook, and when pretty-printing changes the text body the
      Content-Length headers are recomputed from the new body. */
  function Revised(m: Manipulations, prettyPrint: bool, prettify: string -> string, response: ServiceResponse)
    : (r: ServiceResponse)
    ensures r.statusCode == response.statusCode && r.contentType == response.contentType
    ensures r.body.Text? <==> response.body.Text?
    ensures response.body.Binary? ==> r.body == response.body
    ensures response.body.Text? ==>
      r.body == Text(if prettyPrint then prettify(m.changeBodyReturnedBackFromServer(response.body.text))
                     else m.changeBodyReturnedBackFromServer(response.body.text))
  {
    var newHeaders := m.changeAllHeadersReturnedBackFromServer(
      Kept(m.changeSingleHeaderReturnedBackFromServer, response.headers));
    match response.body
    case Binary(_) => response.(headers := newHeaders)
    case Text(text) =>
      var body := m.changeBodyReturnedBackFromServer(text);
      if prettyPrint && prettify(body) != body then
        response.(body := Text(prettify(body)), headers := Rewritten(newHeaders, |prettify(body)|))
      else
        response.(body := Text(body), headers := newHeaders)
  }

  /** The Content-Length rewrite happens only when the body is text and the
      pretty-printer changed it; then every header starting with
      "Content-Length" states the new body's length, every other header is
      untouched, and count and order are kept. Otherwise the headers are those
      the all-headers hook returned. */
  lemma RevisedContentLength(m: Manipulations, prettyPrint: bool, prettify: string -> string, response: ServiceResponse)
    ensures var r := Revised(m, prettyPrint, prettify, response);
      var newHeaders := m.changeAllHeadersReturnedBackFromServer(
        Kept(m.changeSingleHeaderReturnedBackFromServer, response.headers));
      var changed := response.body.Text? && prettyPrint &&
        prettify(m.changeBodyReturnedBackFromServer(response.body.text)) != m.changeBodyReturnedBackFromServer(response.body.text);
      (!changed ==> r.headers == newHeaders) &&
      (changed ==>
        r.body.Text? &&
        |r.headers| == |newHeaders| &&
        forall k :: 0 <= k < |newHeaders| ==>
          if StartsWith(newHeaders[k], ContentLength)
          then r.headers[k] == ContentLengthLine(|r.body.text|) && StartsWith(r.headers[k], ContentLength)
          else r.headers[k] == newHeaders[k])
  {
    var newHeaders := m.changeAllHeadersReturnedBackFromServer(
      Kept(m.changeSingleHeaderReturnedBackFromServer, response.headers));
    if response.body.Text? {
      var body := m.changeBodyReturnedBackFromServer(response.body.text);
      RewrittenPointwise(newHeaders, |prettify(body)|);
      ContentLengthLineReadsBack(|prettify(body)|);
    }
  }

  /** With hooks that change nothing and a pretty-printer that leaves the body as
      it is, the response comes back exactly as it went in: same headers, same
      length, same order, duplicates kept. */
  lemma NoOpRevisionIsIdentity(m: Manipulations, prettyPrint: bool, prettify: string -> string, response: ServiceResponse)
    requires forall i, h :: m.changeSingleHeaderReturnedBackFromServer(i, h) == Some(h)
    requires forall hs :: m.changeAllHeadersReturnedBackFromServer(hs) == hs
    requires forall b :: m.changeBodyReturnedBackFromServer(b) == b
    requires response.body.Text? && prettyPrint ==> prettify(response.body.text) == response.body.text
    ensures Revised(m, prettyPrint, prettify, response) == response
  {
    KeptAll(m.changeSingleHeaderReturnedBackFromServer, response.headers);
  }
}
