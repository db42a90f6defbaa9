/** The request side of the manipulation pipeline: header lines built from the
    client's request headers, the request body, and the URL sent on. */
module Outbound {
  import opened Strings
  import opened Http

  /** The line built for one header value: the name (lower-cased when the
      server lower-cases headers), ": ", and the value after `headerReplacement`. */
  function HeaderLine(m: Manipulations, lowerCase: bool, name: string, value: string): string {
    (if lowerCase then ToLower(name) else name) + Separator + m.headerReplacement(name, value)
  }

  /** The values of one header, each appended as a line to the growing list,
      which the single-header hook then gets to change. */
  function AddValues(m: Manipulations, httpMethod: string, lowerCase: bool, name: string, values: seq<string>,
                     acc: seq<string>): seq<string>
    decreases |values|
  {
    if values == [] then acc
    else
      var line := HeaderLine(m, lowerCase, name, values[0]);
      AddValues(m, httpMethod, lowerCase, name, values[1..],
        m.changeSingleHeaderForRequestToServer(httpMethod, line, acc + [line]))
  }

  /** All request headers, in the order the server walks them. */
  function AddHeaders(m: Manipulations, httpMethod: string, lowerCase: bool, headers: seq<HeaderValues>,
                      acc: seq<string>): seq<string>
    decreases |headers|
  {
    if headers == [] then acc
    else AddHeaders(m, httpMethod, lowerCase, headers[1..],
                    AddValues(m, httpMethod, lowerCase, headers[0].name, headers[0].values, acc))
  }

  /** The request header lines handed to the interactor and noted on the interaction. */
  function OutboundHeaders(m: Manipulations, httpMethod: string, lowerCase: bool, headers: seq<HeaderValues>)
    : seq<string>
  {
    m.changeAllHeadersForRequestToServer(AddHeaders(m, httpMethod, lowerCase, headers, []))
  }

  /** The lines of one header, one per value, in order. */
  function ValueLines(m: Manipulations, lowerCase: bool, h: HeaderValues): seq<string> {
    seq(|h.values|, k requires 0 <= k < |h.values| => HeaderLine(m, lowerCase, h.name, h.values[k]))
  }

  /** The lines of all headers, header by header. */
  function Lines(m: Manipulations, lowerCase: bool, headers: seq<HeaderValues>): seq<string> {
    if headers == [] then [] else ValueLines(m, lowerCase, headers[0]) + Lines(m, lowerCase, headers[1..])
  }

  /** When the single-header hook leaves the list alone, each value appends
      exactly its own line, in order. */
  lemma {:induction false} AddValuesAppends(m: Manipulations, httpMethod: string, lowerCase: bool,
                                             name: string, values: seq<string>, acc: seq<string>)
    requires forall verb, line, hs :: m.changeSingleHeaderForRequestToServer(verb, line, hs) == hs
    ensures AddValues(m, httpMethod, lowerCase, name, values, acc) ==
      acc + ValueLines(m, lowerCase, HeaderValues(name, values))
    decreases |values|
  {
    if values != [] {
      var line := HeaderLine(m, lowerCase, name, values[0]);
      AddValuesAppends(m, httpMethod, lowerCase, name, values[1..], acc + [line]);
      assert [line] + ValueLines(m, lowerCase, HeaderValues(name, values[1..])) ==
        ValueLines(m, lowerCase, HeaderValues(name, values));
    }
  }

  /** When the single-header hook leaves the list alone, the list grows by one
      line per header value, in the order of the headers and of their values. */
  lemma {:induction false} AddHeadersAppends(m: Manipulations, httpMethod: string, lowerCase: bool,
                                              headers: seq<HeaderValues>, acc: seq<string>)
    requires forall verb, line, hs :: m.changeSingleHeaderForRequestToServer(verb, line, hs) == hs
    ensures AddHeaders(m, httpMethod, lowerCase, headers, acc) == acc + Lines(m, lowerCase, headers)
    decreases |headers|
  {
    if headers != [] {
      AddValuesAppends(m, httpMethod, lowerCase, headers[0].name, headers[0].values, acc);
      AddHeadersAppends(m, httpMethod, lowerCase, headers[1..],
                        acc + ValueLines(m, lowerCase, headers[0]));
    }
  }

  /** When the single-header hook leaves the list alone, the all-headers hook
      gets one line per header value, header by header, in order. */
  lemma OutboundHeadersAreLines(m: Manipulations, httpMethod: string, lowerCase: bool, headers: seq<HeaderValues>)
    requires forall verb, line, hs :: m.changeSingleHeaderForRequestToServer(verb, line, hs) == hs
    ensures OutboundHeaders(m, httpMethod, lowerCase, headers) ==
      m.changeAllHeadersForRequestToServer(Lines(m, lowerCase, headers))
  {
    AddHeadersAppends(m, httpMethod, lowerCase, headers, []);
    assert [] + Lines(m, lowerCase, headers) == Lines(m, lowerCase, headers);
  }

  /** A line built for a header whose name holds no ": " splits back into the
      (possibly lower-cased) name and the replaced value. */
  lemma HeaderLineSplits(m: Manipulations, lowerCase: bool, name: string, value: string)
    requires NoSeparator(name)
    ensures SplitHeader(HeaderLine(m, lowerCase, name, value)) ==
      Some((if lowerCase then ToLower(name) else name, m.headerReplacement(name, value)))
  {
    var shown := if lowerCase then ToLower(name) else name;
    forall k: nat | k < |shown| ensures !OccursAt(shown, Separator, k) {
      ToLowerKeepsOccurrences(name, Separator, k);
    }
    SplitJoin(shown, m.headerReplacement(name, value));
  }

  /** The nested walk over the request headers and their values, appending each
      line to `clientRequestHeaders` and calling the single-header hook, then the
      all-headers hook. */
  method AssembleHeaders(m: Manipulations, httpMethod: string, lowerCase: bool, headers: seq<HeaderValues>)
    returns (clientRequestHeaders: seq<string>)
    ensures clientRequestHeaders == OutboundHeaders(m, httpMethod, lowerCase, headers)
  {
    clientRequestHeaders := [];
    var i := 0;
    while i < |headers|
      invariant 0 <= i <= |headers|
      invariant AddHeaders(m, httpMethod, lowerCase, headers[i..], clientRequestHeaders) ==
        AddHeaders(m, httpMethod, lowerCase, headers, [])
    {
      var hdrName := headers[i].name;
      var values := headers[i].values;
      ghost var before := clientRequestHeaders;
      assert headers[i..][1..] == headers[i + 1..];
      var j := 0;
      while j < |values|
        invariant 0 <= j <= |values|
        invariant AddValues(m, httpMethod, lowerCase, hdrName, values[j..], clientRequestHeaders) ==
          AddValues(m, httpMethod, lowerCase, hdrName, values, before)
      {
        var hdrVal := m.headerReplacement(hdrName, values[j]);
        var newHeader := (if lowerCase then ToLower(hdrName) else hdrName) + Separator + hdrVal;
        clientRequestHeaders := clientRequestHeaders + [newHeader];
        clientRequestHeaders := m.changeSingleHeaderForRequestToServer(httpMethod, newHeader, clientRequestHeaders);
        assert values[j..][1..] == values[j + 1..];
        j := j + 1;
      }
      i := i + 1;
    }
    clientRequestHeaders := m.changeAllHeadersForRequestToServer(clientRequestHeaders);
  }

  /** The request body noted on the interaction, from what was read off the
      request (`None` when nothing was available): a text body is pretty-printed
      when the server does so and then goes through the body hook; a binary body
      is kept as it is; no body becomes "" without passing through the hook. */
  function RequestBody(m: Manipulations, prettyPrint: bool, prettify: string -> string, read: Option<Body>)
    : (b: Body)
    ensures read.None? ==> b == Text("")
    ensures read.Some? && read.value.Binary? ==> b == read.value
    ensures b.Text? <==> read.None? || read.value.Text?
    ensures read.Some? && read.value.Text? ==>
      b == Text(m.changeBodyForRequestToServer(if prettyPrint then prettify(read.value.text) else read.value.text))
  {
    match read
    case None => Text("")
    case Some(Binary(bytes)) => Binary(bytes)
    case Some(Text(text)) => Text(m.changeBodyForRequestToServer(if prettyPrint then prettify(text) else text))
  }
}
